/** The answer to "which of these peers are online": one bit per peer, packed from left to right. */
module OnlineStates {
  import opened Prelude

  const REG_TIMEOUT: int := 30_000

  /** Milliseconds since a peer's last registration, for a peer that is in memory. */
  type LastSeen = Option<nat>

  predicate Online(seen: LastSeen) {
    seen.Some? && seen.value < REG_TIMEOUT
  }

  /** The bit of a byte that stands for the k-th peer of its eight, k = 0 leftmost. */
  function Mask(k: nat): bv8
    requires k < 8
  {
    1 << (7 - k)
  }

  predicate Bit(b: bv8, k: nat)
    requires k < 8
  {
    b & Mask(k) != 0
  }

  /** Setting a bit sets that bit and no other. */
  lemma SetBit(b: bv8, j: nat, k: nat)
    requires j < 8 && k < 8
    ensures Bit(b | Mask(j), k) <==> j == k || Bit(b, k)
  {
    MaskTable(j);
    MaskTable(k);
  }

  lemma MaskTable(k: nat)
    requires k < 8
    ensures Mask(k) == if k == 0 then 128 else if k == 1 then 64 else if k == 2 then 32 else if k == 3 then 16
                       else if k == 4 then 8 else if k == 5 then 4 else if k == 6 then 2 else 1
  {}

  predicate BitAt(states: seq<bv8>, i: nat)
    requires i / 8 < |states|
  {
    Bit(states[i / 8], i % 8)
  }

  /** Of the bits, exactly those of the online ones among the first n peers are set. */
  ghost predicate Marked(states: seq<bv8>, peers: seq<LastSeen>, n: nat)
    requires n <= |peers|
  {
    forall m :: 0 <= m < 8 * |states| ==> (BitAt(states, m) <==> m < n && Online(peers[m]))
  }

  lemma NothingMarked(states: seq<bv8>, peers: seq<LastSeen>)
    requires forall j :: 0 <= j < |states| ==> states[j] == 0
    ensures Marked(states, peers, 0)
  {
    forall m | 0 <= m < 8 * |states| ensures !BitAt(states, m) { MaskTable(m % 8); }
  }

  lemma OneBitSet(before: seq<bv8>, after: seq<bv8>, i: nat, m: nat)
    requires i / 8 < |before| && m / 8 < |before| && after == before[i / 8 := before[i / 8] | Mask(i % 8)]
    ensures BitAt(after, m) <==> m == i || BitAt(before, m)
  {
    if m / 8 == i / 8 { SetBit(before[i / 8], i % 8, m % 8); }
  }

  lemma OneMoreMarked(before: seq<bv8>, after: seq<bv8>, peers: seq<LastSeen>, i: nat)
    requires i < |peers| && i / 8 < |before| && Marked(before, peers, i) && Online(peers[i])
    requires after == before[i / 8 := before[i / 8] | Mask(i % 8)]
    ensures Marked(after, peers, i + 1)
  {
    forall m | 0 <= m < 8 * |after| ensures BitAt(after, m) <==> m < i + 1 && Online(peers[m]) {
      OneBitSet(before, after, i, m);
      assert BitAt(before, m) <==> m < i && Online(peers[m]);
    }
  }

  /** The reply: bit i, left to right, is set exactly if peer i is online; the padding is zero. */
  method OnlineRequest(peers: seq<LastSeen>) returns (states: array<bv8>)
    ensures fresh(states) && states.Length == (|peers| + 7) / 8
    ensures Marked(states[..], peers, |peers|)
    ensures forall i :: 0 <= i < |peers| ==>
              ((states[i / 8] >> (7 - i % 8)) & 1 == 1 <==> peers[i].Some? && peers[i].value < 30_000)
  {
    states := new bv8[(|peers| + 7) / 8](_ => 0);
    NothingMarked(states[..], peers);
    for i := 0 to |peers|
      invariant Marked(states[..], peers, i)
    {
      if peers[i].Some? {
        var index, bit := i / 8, i % 8;
        if peers[i].value < REG_TIMEOUT {
          ghost var before := states[..];
          states[index] := states[index] | Mask(bit);
          OneMoreMarked(before, states[..], peers, i);
        }
      }
    }
  }
}
