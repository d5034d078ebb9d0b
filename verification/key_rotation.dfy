/** Rotating the server's identity key: the order of the file-system calls, what each of them can
    fail at, and what a stop after any of them leaves on disk. */
module KeyRotation {
  import opened Prelude

  type Secret = string

  datatype Name = KeyFile | Temp | Archive(stamp: nat)

  datatype Content = Partial | Whole(key: Secret)

  type Disk = map<Name, Content>

  /** One rotation: the new key, the second on the clock, and how each call goes. `missed` is an
      `exists` that answers no although the key file is there. */
  datatype Rotation = Rotation(
    newKey: Secret, stamp: nat, openOk: bool, writeOk: bool, missed: bool,
    archiveOk: bool, publishOk: bool, rollbackOk: bool, removeOk: bool)

  function Move(d: Disk, from: Name, to: Name): Disk
    requires from in d
  {
    (d - {from})[to := d[from]]
  }

  function Removed(d: Disk, n: Name, ok: bool): Disk {
    if ok then d - {n} else d
  }

  predicate HadOld(d: Disk, r: Rotation) {
    KeyFile in d && !r.missed
  }

  predicate Succeeds(d: Disk, r: Rotation) {
    r.openOk && r.writeOk && (HadOld(d, r) ==> r.archiveOk) && r.publishOk
  }

  function Written(d: Disk, r: Rotation): Disk {
    d[Temp := Whole(r.newKey)]
  }

  function Archived(d: Disk, r: Rotation): Disk {
    if HadOld(d, r) then Move(Written(d, r), KeyFile, Archive(r.stamp)) else Written(d, r)
  }

  function RolledBack(d: Disk, r: Rotation): Disk {
    if HadOld(d, r) && r.rollbackOk then Move(Archived(d, r), Archive(r.stamp), KeyFile) else Archived(d, r)
  }

  /** The disk after each call: what a stop there leaves. */
  function Trace(d: Disk, r: Rotation): seq<Disk> {
    if !r.openOk then [d]
    else if !r.writeOk then [d, d[Temp := Partial]]
    else
      var written := [d, d[Temp := Partial], Written(d, r)];
      if HadOld(d, r) && !r.archiveOk then written + [Removed(Written(d, r), Temp, r.removeOk)]
      else
        var archived := written + [Archived(d, r)];
        if r.publishOk then archived + [Move(Archived(d, r), Temp, KeyFile)]
        else archived + [RolledBack(d, r), Removed(RolledBack(d, r), Temp, r.removeOk)]
  }

  function Final(d: Disk, r: Rotation): Disk {
    var t := Trace(d, r);
    t[|t| - 1]
  }

  class KeyStore {
    var disk: Disk

    constructor (loaded: Disk)
      ensures disk == loaded
    {
      disk := loaded;
    }

    method Rename(from: Name, to: Name, ok: bool) returns (done: bool)
      modifies this
      ensures done == (ok && from in old(disk))
      ensures disk == if done then Move(old(disk), from, to) else old(disk)
    {
      done := ok && from in disk;
      if done { disk := (disk - {from})[to := disk[from]]; }
    }

    method Remove(n: Name, ok: bool)
      modifies this
      ensures disk == Removed(old(disk), n, ok)
    {
      if ok { disk := disk - {n}; }
    }

    /** The archive's name on success (none if there was no key to archive), as the calls go. */
    method Rotate(r: Rotation) returns (archive: Result<Option<Name>, string>)
      modifies this
      ensures disk == Final(old(disk), r)
      ensures archive.Ok? <==> Succeeds(old(disk), r)
      ensures archive.Ok? ==> archive.value == if HadOld(old(disk), r) then Some(Archive(r.stamp)) else None
    {
      if !r.openOk { return Err("could not write the replacement key"); }
      disk := disk[Temp := Partial];
      if !r.writeOk { return Err("could not write the replacement key"); }
      disk := disk[Temp := Whole(r.newKey)];
      assert disk == Written(old(disk), r);
      var hadOld := KeyFile in disk && !r.missed;
      if hadOld {
        var moved := Rename(KeyFile, Archive(r.stamp), r.archiveOk);
        if !moved {
          Remove(Temp, r.removeOk);
          return Err("could not archive the current key");
        }
      }
      var published := Rename(Temp, KeyFile, r.publishOk);
      if !published {
        if hadOld { var _ := Rename(Archive(r.stamp), KeyFile, r.rollbackOk); }
        Remove(Temp, r.removeOk);
        return Err("could not publish the replacement key");
      }
      archive := Ok(if hadOld then Some(Archive(r.stamp)) else None);
    }
  }

  // ---- What is kept -----------------------------------------------------------------------

  /** The secret is whole, in service or archived. */
  predicate Holds(d: Disk, k: Secret) {
    exists n <- d :: n != Temp && d[n] == Whole(k)
  }

  predicate Keeps(d: Disk, d': Disk) {
    forall n <- d :: n != Temp && d[n].Whole? ==> Holds(d', d[n].key)
  }

  /** No secret is stored twice, and the new one not at all. */
  predicate Distinct(d: Disk, newKey: Secret) {
    && (forall m, n :: m in d && n in d && m != Temp && n != Temp && d[m] == d[n] ==> m == n)
    && (forall n <- d :: n != Temp ==> d[n].Whole? && d[n] != Whole(newKey))
  }

  /** The key in service is overwritten unseen, or an archive of the same second is. */
  predicate Loses(d: Disk, r: Rotation) {
    && r.openOk && r.writeOk && KeyFile in d
    && if r.missed then r.publishOk else r.archiveOk && Archive(r.stamp) in d
  }

  lemma HoldsAt(d: Disk, n: Name)
    requires n in d && n != Temp && d[n].Whole?
    ensures Holds(d, d[n].key)
  {}

  /** Each disk of the trace is one of six, spelled out by what is under each name. */
  lemma KeepsUnlessLoses(d: Disk, r: Rotation, i: nat)
    requires !Loses(d, r) && i < |Trace(d, r)|
    ensures Keeps(d, Trace(d, r)[i])
  {
    var t := Trace(d, r)[i];
    forall n | n in d && n != Temp && d[n].Whole? ensures Holds(t, d[n].key) {
      var at := if n == KeyFile && KeyFile !in t then Archive(r.stamp)
                else if n == KeyFile && t[KeyFile] != d[KeyFile] then Archive(r.stamp) else n;
      assert at in t && t[at] == d[n];
      HoldsAt(t, at);
    }
  }

  /** The previous secret survives every failure and every stop: at each point of a rotation in
      which `exists` saw the key file it is whole in the key file or in the archive, whether or not
      that archive's name was taken. */
  lemma PreviousSecretSurvives(d: Disk, r: Rotation, i: nat)
    requires KeyFile in d && d[KeyFile].Whole? && !r.missed && i < |Trace(d, r)|
    ensures var t := Trace(d, r)[i];
            (KeyFile in t && t[KeyFile] == d[KeyFile]) || (Archive(r.stamp) in t && t[Archive(r.stamp)] == d[KeyFile])
  {}

  /** Every secret on disk survives to every point of a rotation, if and only if it is not one that
      overwrites: the key file when `exists` missed it, or an older archive of the same second. */
  lemma NothingLostIff(d: Disk, r: Rotation)
    requires Distinct(d, r.newKey)
    ensures (forall i :: 0 <= i < |Trace(d, r)| ==> Keeps(d, Trace(d, r)[i])) <==> !Loses(d, r)
  {
    if !Loses(d, r) {
      forall i | 0 <= i < |Trace(d, r)| ensures Keeps(d, Trace(d, r)[i]) { KeepsUnlessLoses(d, r, i); }
    } else if r.missed {
      var z := Final(d, r);
      assert Trace(d, r)[|Trace(d, r)| - 1] == z && z == Move(Written(d, r), Temp, KeyFile);
      assert !Holds(z, d[KeyFile].key);
    } else {
      var older := Archive(r.stamp);
      assert Trace(d, r)[3] == Archived(d, r);
      assert !Holds(Archived(d, r), d[older].key);
    }
  }

  /** What a finished rotation leaves: on success the new key in service; on an error with a working
      rollback the key file as it was. The one error that leaves no key in service is a failed
      publication whose rollback fails too. */
  lemma OutcomeExact(d: Disk, r: Rotation)
    ensures Succeeds(d, r) ==> KeyFile in Final(d, r) && Final(d, r)[KeyFile] == Whole(r.newKey)
    ensures Succeeds(d, r) && HadOld(d, r) ==> Archive(r.stamp) in Final(d, r) && Final(d, r)[Archive(r.stamp)] == d[KeyFile]
    ensures !Succeeds(d, r) && r.rollbackOk ==> (KeyFile in Final(d, r) <==> KeyFile in d)
                                                && (KeyFile in d ==> Final(d, r)[KeyFile] == d[KeyFile])
    ensures KeyFile in d && KeyFile !in Final(d, r) <==>
            HadOld(d, r) && r.openOk && r.writeOk && r.archiveOk && !r.publishOk && !r.rollbackOk
    ensures Succeeds(d, r) || (r.removeOk && r.openOk && r.writeOk) ==> Temp !in Final(d, r)
    ensures !r.openOk ==> Final(d, r) == d
    ensures r.openOk && !r.writeOk ==> Final(d, r) == d[Temp := Partial]
  {}

  /** No other archive is touched, at any point. */
  lemma OthersUntouched(d: Disk, r: Rotation, i: nat, n: Name)
    requires i < |Trace(d, r)| && n !in {KeyFile, Temp, Archive(r.stamp)}
    ensures n in Trace(d, r)[i] <==> n in d
    ensures n in d ==> Trace(d, r)[i][n] == d[n]
  {}

  // ---- Rotations in a row -----------------------------------------------------------------

  /** Rotations one after the other, each run to its end or stopped after some call. */
  function After(d: Disk, rs: seq<(Rotation, nat)>): Disk
    decreases |rs|
  {
    if rs == [] then d
    else
      var t := Trace(d, rs[0].0);
      After(if rs[0].1 < |t| then t[rs[0].1] else t[|t| - 1], rs[1..])
  }

  predicate Usable(d: Disk, rs: seq<(Rotation, nat)>) {
    && (forall i :: 0 <= i < |rs| ==> !rs[i].0.missed && Archive(rs[i].0.stamp) !in d)
    && (forall i, j :: 0 <= i < j < |rs| ==> rs[i].0.stamp != rs[j].0.stamp)
  }

  lemma ArchivesGrowByOne(d: Disk, r: Rotation, i: nat, stamp: nat)
    requires i < |Trace(d, r)| && stamp != r.stamp && Archive(stamp) !in d
    ensures Archive(stamp) !in Trace(d, r)[i]
  {}

  lemma KeepsTransitive(a: Disk, b: Disk, c: Disk)
    requires Keeps(a, b) && Keeps(b, c)
    ensures Keeps(a, c)
  {}

  /** Over any number of rotations, in distinct seconds and with a truthful `exists`, each failing or
      stopped anywhere, no secret in service or archived at the start is lost; and so, from each
      rotation on, none that it put in service. */
  lemma {:induction false} NoSecretEverLost(d: Disk, rs: seq<(Rotation, nat)>)
    requires Usable(d, rs)
    ensures Keeps(d, After(d, rs))
    decreases |rs|
  {
    if rs == [] {
      forall n | n in d && n != Temp && d[n].Whole? ensures Holds(d, d[n].key) { HoldsAt(d, n); }
    } else {
      var r, t := rs[0].0, Trace(d, rs[0].0);
      var i := if rs[0].1 < |t| then rs[0].1 else |t| - 1;
      KeepsUnlessLoses(d, r, i);
      forall j | 1 <= j < |rs| ensures Archive(rs[j].0.stamp) !in t[i] {
        ArchivesGrowByOne(d, r, i, rs[j].0.stamp);
      }
      NoSecretEverLost(t[i], rs[1..]);
      KeepsTransitive(d, t[i], After(d, rs));
    }
  }

  /** Two successful rotations in the same second leave nothing of the first key. */
  lemma SameSecondLosesTheOldest(k0: Secret, k1: Secret, k2: Secret, stamp: nat)
    requires k0 != k1 && k0 != k2
    ensures var d := map[KeyFile := Whole(k0)];
            var r1 := Rotation(k1, stamp, true, true, false, true, true, true, true);
            var r2 := Rotation(k2, stamp, true, true, false, true, true, true, true);
            !Holds(Final(Final(d, r1), r2), k0)
  {}
}
