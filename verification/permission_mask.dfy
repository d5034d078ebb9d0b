/** A user's session policy as the two-bit-per-permission mask sent with a connection. */
module PermissionMask {
  import opened Prelude

  /** The policy options that are permissions, in the order they are looked at. */
  const KEYS: seq<string> := [
    "enable-keyboard", "enable-remote-printer", "enable-clipboard", "enable-file-transfer", "enable-audio",
    "enable-camera", "enable-terminal", "enable-tunnel", "enable-remote-restart", "enable-record-session",
    "enable-block-input", "enable-privacy-mode", "allow-remote-config-modification"]

  /** The wire number of each permission. They are fixed by a protocol definition that is not part of
      this model, so they are any numbers here; no two permissions share one. */
  predicate Numbering(index: seq<bv64>) {
    |index| == |KEYS| && forall i, j :: 0 <= i < j < |index| ==> index[i] != index[j]
  }

  const NOT_SET: bv64 := 0
  const DISABLED: bv64 := 1
  const ENABLED: bv64 := 2

  type Options = map<string, string>

  function Encoded(value: string): bv64 {
    if value == "N" || value == "n" then DISABLED else ENABLED
  }

  /** What a policy says of a permission. */
  function Setting(options: Options, key: string): bv64 {
    if key in options then Encoded(options[key]) else NOT_SET
  }

  /** What the client reads for a permission number. */
  function Field(bits: bv64, index: bv64): bv64
    requires index < 32
  {
    (bits >> (index + index)) & 3
  }

  lemma FieldOfOr(a: bv64, b: bv64, t: bv64)
    requires t < 64
    ensures ((a | b) >> t) & 3 == ((a >> t) & 3) | ((b >> t) & 3)
  {}

  lemma FieldOfShifted(value: bv64, j: bv64, i: bv64)
    requires value < 4 && i < 32 && j < 32
    ensures ((value << (j + j)) >> (i + i)) & 3 == if i == j then value else 0
  {}

  lemma OrNothing(b: bv64)
    ensures b | NOT_SET == b && NOT_SET | b == b
  {}

  lemma OrField(bits: bv64, value: bv64, j: bv64, i: bv64)
    requires j < 32 && i < 32 && value < 4
    ensures Field(bits | (value << (j + j)), i) == if i == j then Field(bits, i) | value else Field(bits, i)
  {
    FieldOfOr(bits, value << (j + j), i + i);
    FieldOfShifted(value, j, i);
    OrNothing(Field(bits, i));
  }

  /** The first n permissions as they should read. */
  ghost predicate Reads(bits: bv64, options: Options, index: seq<bv64>, n: nat)
    requires n <= |KEYS| == |index|
  {
    && (forall k :: 0 <= k < n && index[k] < 32 ==> Field(bits, index[k]) == Setting(options, KEYS[k]))
    && (forall i: bv64 :: i < 32 && (forall k :: 0 <= k < n ==> index[k] != i) ==> Field(bits, i) == NOT_SET)
  }

  predicate SaysSomething(options: Options, index: seq<bv64>, n: nat)
    requires n <= |KEYS| == |index|
  {
    exists k :: 0 <= k < n && index[k] < 32 && KEYS[k] in options
  }

  function Put(bits: bv64, value: bv64, index: bv64): bv64
    requires index < 32
  {
    bits | (value << (index + index))
  }

  function Added(bits: bv64, options: Options, index: seq<bv64>, k: nat): bv64
    requires k < |KEYS| == |index|
  {
    if KEYS[k] in options && index[k] < 32 then Put(bits, Encoded(options[KEYS[k]]), index[k]) else bits
  }

  lemma AddedField(bits: bv64, options: Options, index: seq<bv64>, k: nat, i: bv64)
    requires k < |KEYS| == |index| && i < 32
    ensures Field(Added(bits, options, index, k), i) ==
            if i == index[k] then Field(bits, i) | Setting(options, KEYS[k]) else Field(bits, i)
  {
    if KEYS[k] in options && index[k] < 32 {
      PutField(bits, Encoded(options[KEYS[k]]), index[k], i);
    } else {
      OrNothing(Field(bits, i));
    }
  }

  lemma PutField(bits: bv64, value: bv64, j: bv64, i: bv64)
    requires j < 32 && i < 32 && value < 4
    ensures Field(Put(bits, value, j), i) == if i == j then Field(bits, i) | value else Field(bits, i)
  {
    OrField(bits, value, j, i);
  }

  lemma NonZeroField(bits: bv64, i: bv64)
    requires i < 32 && Field(bits, i) != 0
    ensures bits != 0
  {}

  lemma NextReads(bits: bv64, options: Options, index: seq<bv64>, k: nat)
    requires Numbering(index) && k < |KEYS| && Reads(bits, options, index, k)
    ensures Reads(Added(bits, options, index, k), options, index, k + 1)
  {
    var after := Added(bits, options, index, k);
    forall m | 0 <= m <= k && index[m] < 32 ensures Field(after, index[m]) == Setting(options, KEYS[m]) {
      AddedField(bits, options, index, k, index[m]);
      if m == k { OrNothing(Setting(options, KEYS[k])); }
    }
    forall i: bv64 | i < 32 && (forall m :: 0 <= m <= k ==> index[m] != i) ensures Field(after, i) == NOT_SET {
      assert index[k] != i;
      AddedField(bits, options, index, k, i);
    }
  }

  lemma NextSays(bits: bv64, options: Options, index: seq<bv64>, k: nat)
    requires Numbering(index) && k < |KEYS| && Reads(bits, options, index, k)
    requires bits == 0 <==> !SaysSomething(options, index, k)
    ensures Added(bits, options, index, k) == 0 <==> !SaysSomething(options, index, k + 1)
  {
    NextReads(bits, options, index, k);
    if KEYS[k] in options && index[k] < 32 {
      NonZeroField(Added(bits, options, index, k), index[k]);
    }
  }

  /** The mask after the first n permissions. */
  function MaskUpTo(options: Options, index: seq<bv64>, n: nat): bv64
    requires n <= |KEYS| == |index|
  {
    if n == 0 then 0 else Added(MaskUpTo(options, index, n - 1), options, index, n - 1)
  }

  /** Each permission reads back as exactly what the policy says of it, every other field is unset,
      and the mask is zero exactly if the policy mentions no permission. */
  lemma {:induction false} MaskReadsBack(options: Options, index: seq<bv64>, n: nat)
    requires Numbering(index) && n <= |KEYS|
    ensures Reads(MaskUpTo(options, index, n), options, index, n)
    ensures MaskUpTo(options, index, n) == 0 <==> !SaysSomething(options, index, n)
  {
    if n == 0 {
      EmptyMask(options, index);
    } else {
      var before := MaskUpTo(options, index, n - 1);
      MaskReadsBack(options, index, n - 1);
      NextMask(before, options, index, n - 1);
    }
  }

  lemma EmptyMask(options: Options, index: seq<bv64>)
    requires Numbering(index)
    ensures Reads(0, options, index, 0) && !SaysSomething(options, index, 0)
  {}

  lemma NextMask(bits: bv64, options: Options, index: seq<bv64>, k: nat)
    requires Numbering(index) && k < |KEYS| && Reads(bits, options, index, k)
    requires bits == 0 <==> !SaysSomething(options, index, k)
    ensures Reads(Added(bits, options, index, k), options, index, k + 1)
    ensures Added(bits, options, index, k) == 0 <==> !SaysSomething(options, index, k + 1)
  {
    NextReads(bits, options, index, k);
    NextSays(bits, options, index, k);
  }

  /** No opinion for a controller without a signed-in, enabled user, nor for a policy that mentions no
      permission; else a mask that reads back as exactly the policy. */
  method ControlPermissionsFor(policy: Option<Options>, index: seq<bv64>) returns (mask: Option<bv64>)
    requires Numbering(index)
    ensures mask.Some? <==> policy.Some? && SaysSomething(policy.value, index, |KEYS|)
    ensures mask.Some? ==> Reads(mask.value, policy.value, index, |KEYS|)
    ensures mask.Some? ==> forall k :: 0 <= k < |KEYS| && index[k] < 32 ==>
                             Field(mask.value, index[k]) == if KEYS[k] !in policy.value then 0
                                                            else if policy.value[KEYS[k]] in {"N", "n"} then 1 else 2
  {
    if policy.None? { return None; }
    var options, bits: bv64 := policy.value, 0;
    for k := 0 to |KEYS|
      invariant bits == MaskUpTo(options, index, k)
    {
      if KEYS[k] in options && index[k] < 32 {
        bits := Put(bits, Encoded(options[KEYS[k]]), index[k]);
      }
    }
    MaskReadsBack(options, index, |KEYS|);
    mask := if bits == 0 then None else Some(bits);
  }
}
