/** Rotations of one server process that overlap: the route takes no lock, and the temporary name
    carries the process id only, so all of them write to one name. Every file-system call is a step
    that can fail, and a rotation can stop before any of them. */
module RotationOverlap {
  import opened Prelude
  import opened KeyRotation

  /** Files and the names that lead to them: a rotation keeps writing to the file it opened, wherever
      that file has been renamed to meanwhile. */
  datatype Files = Files(inodes: map<nat, Content>, names: map<Name, nat>)

  datatype Phase =
    | Opening
    | Writing(ino: nat)
    | Asking
    | Archiving
    | Publishing(hadOld: bool)
    | RollingBack
    | Removing
    | Failed
    | Succeeded

  /** One rotation, with the key it generated and the second of its archive. */
  datatype Call = Call(key: Secret, stamp: nat, phase: Phase)

  type CallId = nat

  datatype State = State(files: Files, calls: map<CallId, Call>)

  /** `Tear` is a write that fails after some bytes; `missed` an `exists` that answers no although the
      key file is there. */
  datatype Step =
    | Begin(p: CallId, key: Secret, stamp: nat)
    | Open(p: CallId, ino: nat, fails: bool)
    | Write(p: CallId, fails: bool)
    | Tear(p: CallId)
    | Ask(p: CallId, missed: bool)
    | ArchiveOld(p: CallId, fails: bool)
    | Publish(p: CallId, fails: bool)
    | RollBack(p: CallId, fails: bool)
    | Remove(p: CallId, fails: bool)
    | Stop(p: CallId)

  function At(f: Files, n: Name): Option<Content> {
    if n in f.names && f.names[n] in f.inodes then Some(f.inodes[f.names[n]]) else None
  }

  function Renamed(f: Files, from: Name, to: Name): Files {
    if from in f.names then f.(names := (f.names - {from})[to := f.names[from]]) else f
  }

  function Opened(f: Files, ino: nat): Files {
    var i := if Temp in f.names then f.names[Temp] else ino;
    Files(f.inodes[i := Partial], f.names[Temp := i])
  }

  /** A key just generated is nobody else's. */
  predicate FreshKey(s: State, key: Secret) {
    && (forall p <- s.calls :: s.calls[p].key != key)
    && (forall i <- s.files.inodes :: s.files.inodes[i] != Whole(key))
  }

  predicate Enabled(s: State, e: Step) {
    if e.Begin? then e.p !in s.calls && FreshKey(s, e.key)
    else
      e.p in s.calls &&
      var phase := s.calls[e.p].phase;
      match e
      case Open(_, ino, _) => phase.Opening? && ino !in s.files.inodes
      case Write(_, _) => phase.Writing?
      case Tear(_) => phase.Writing?
      case Ask(_, _) => phase.Asking?
      case ArchiveOld(_, _) => phase.Archiving?
      case Publish(_, _) => phase.Publishing?
      case RollBack(_, _) => phase.RollingBack?
      case Remove(_, _) => phase.Removing?
      case Stop(_) => !phase.Failed? && !phase.Succeeded?
      case Begin(_, _, _) => false
  }

  function NextFiles(s: State, e: Step): Files
    requires Enabled(s, e)
  {
    var f := s.files;
    match e
    case Open(_, ino, false) => Opened(f, ino)
    case Write(p, false) => f.(inodes := f.inodes[s.calls[p].phase.ino := Whole(s.calls[p].key)])
    case Tear(p) => f.(inodes := f.inodes[s.calls[p].phase.ino := Partial])
    case ArchiveOld(p, false) => Renamed(f, KeyFile, Archive(s.calls[p].stamp))
    case Publish(_, false) => Renamed(f, Temp, KeyFile)
    case RollBack(p, false) => Renamed(f, Archive(s.calls[p].stamp), KeyFile)
    case Remove(_, false) => f.(names := f.names - {Temp})
    case _ => f
  }

  function NextPhase(s: State, e: Step): Phase
    requires Enabled(s, e)
  {
    var names := s.files.names;
    match e
    case Begin(_, _, _) => Opening
    case Open(_, ino, fails) => if fails then Failed else Writing(Opened(s.files, ino).names[Temp])
    case Write(_, fails) => if fails then Failed else Asking
    case Tear(_) => Failed
    case Ask(_, missed) => if KeyFile in names && !missed then Archiving else Publishing(false)
    case ArchiveOld(_, fails) => if !fails && KeyFile in names then Publishing(true) else Removing
    case Publish(p, fails) =>
      if !fails && Temp in names then Succeeded else if s.calls[p].phase.hadOld then RollingBack else Removing
    case RollBack(_, _) => Removing
    case Remove(_, _) => Failed
    case Stop(_) => Failed
  }

  function Next(s: State, e: Step): State {
    if !Enabled(s, e) then s
    else
      var c := if e.Begin? then Call(e.key, e.stamp, Opening) else s.calls[e.p];
      State(NextFiles(s, e), s.calls[e.p := c.(phase := NextPhase(s, e))])
  }

  function Run(s: State, es: seq<Step>): State
    decreases |es|
  {
    if es == [] then s else Run(Next(s, es[0]), es[1..])
  }

  // ---- Invariant --------------------------------------------------------------------------

  ghost predicate NamesOk(f: Files) {
    && (forall n <- f.names :: f.names[n] in f.inodes)
    && (forall m, n :: m in f.names && n in f.names && f.names[m] == f.names[n] ==> m == n)
  }

  ghost predicate KeysOnce(f: Files) {
    forall i, j :: i in f.inodes && j in f.inodes && f.inodes[i].Whole? && f.inodes[i] == f.inodes[j] ==> i == j
  }

  ghost predicate KeysApart(calls: map<CallId, Call>) {
    forall p, q :: p in calls && q in calls && calls[p].key == calls[q].key ==> p == q
  }

  /** A key that was not written yet is in no file. */
  predicate CallOk(f: Files, c: Call) {
    && (c.phase.Opening? || c.phase.Writing? ==> forall i <- f.inodes :: f.inodes[i] != Whole(c.key))
    && (c.phase.Writing? ==> c.phase.ino in f.inodes)
  }

  ghost predicate Inv(s: State) {
    && NamesOk(s.files) && KeysOnce(s.files) && KeysApart(s.calls)
    && forall p <- s.calls :: CallOk(s.files, s.calls[p])
  }

  lemma NextKeepsInv(s: State, e: Step)
    requires Inv(s)
    ensures Inv(Next(s, e))
  {
    if Enabled(s, e) {
      FilesStayOk(s, e);
      var s' := Next(s, e);
      forall p | p in s'.calls ensures CallOk(s'.files, s'.calls[p]) {
        if p != e.p { OthersStayOk(s, e, p); } else { MoverStaysOk(s, e); }
      }
    }
  }

  lemma FilesStayOk(s: State, e: Step)
    requires Inv(s) && Enabled(s, e)
    ensures NamesOk(NextFiles(s, e)) && KeysOnce(NextFiles(s, e))
  {
    if !e.Begin? { assert CallOk(s.files, s.calls[e.p]); }
  }

  lemma OthersStayOk(s: State, e: Step, p: CallId)
    requires Inv(s) && Enabled(s, e) && p in s.calls && p != e.p
    ensures CallOk(NextFiles(s, e), s.calls[p])
  {
    assert CallOk(s.files, s.calls[p]);
  }

  lemma MoverStaysOk(s: State, e: Step)
    requires Inv(s) && Enabled(s, e)
    ensures CallOk(NextFiles(s, e), Next(s, e).calls[e.p])
  {
    if !e.Begin? { assert CallOk(s.files, s.calls[e.p]); }
  }

  lemma {:induction false} RunKeepsInv(s: State, es: seq<Step>)
    requires Inv(s)
    ensures Inv(Run(s, es))
    decreases |es|
  {
    if es == [] {
    } else {
      NextKeepsInv(s, es[0]);
      RunKeepsInv(Next(s, es[0]), es[1..]);
    }
  }

  // ---- Whose key a success puts in service ------------------------------------------------

  /** Between its write and its renaming of the temporary file. */
  predicate Waiting(s: State, p: CallId) {
    p in s.calls && (s.calls[p].phase.Asking? || s.calls[p].phase.Archiving? || s.calls[p].phase.Publishing?)
  }

  predicate Over(s: State, p: CallId) {
    p in s.calls && (s.calls[p].phase.RollingBack? || s.calls[p].phase.Removing? || s.calls[p].phase.Failed? || s.calls[p].phase.Succeeded?)
  }

  predicate TempIsOwn(s: State, p: CallId)
    requires p in s.calls
  {
    At(s.files, Temp) == Some(Whole(s.calls[p].key))
  }

  /** Another rotation opens the temporary name, or writes to the file it leads to. */
  predicate Disturbs(s: State, e: Step, p: CallId) {
    && e.p != p && Enabled(s, e)
    && match e
       case Open(_, _, false) => true
       case Write(q, false) => Temp in s.files.names && s.files.names[Temp] == s.calls[q].phase.ino
       case Tear(q) => Temp in s.files.names && s.files.names[Temp] == s.calls[q].phase.ino
       case _ => false
  }

  predicate Undisturbed(s: State, es: seq<Step>, p: CallId)
    decreases |es|
  {
    es == [] || (!Disturbs(s, es[0], p) && Undisturbed(Next(s, es[0]), es[1..], p))
  }

  lemma {:induction false} OverStaysOver(s: State, es: seq<Step>, p: CallId)
    requires Over(s, p)
    ensures Over(Run(s, es), p)
    decreases |es|
  {
    if es == [] {
    } else {
      OverStaysOver(Next(s, es[0]), es[1..], p);
    }
  }

  /** A rotation that stops leaves the files as they are, and does nothing more. */
  lemma StoppedIsOver(s: State, p: CallId, es: seq<Step>)
    requires p in s.calls && !s.calls[p].phase.Failed? && !s.calls[p].phase.Succeeded?
    ensures Next(s, Stop(p)).files == s.files && Run(Next(s, Stop(p)), es).calls.Keys >= {p}
    ensures Run(Next(s, Stop(p)), es).calls[p].phase == Failed
  {
    FailedForGood(Next(s, Stop(p)), es, p);
  }

  lemma {:induction false} FailedForGood(s: State, es: seq<Step>, p: CallId)
    requires p in s.calls && s.calls[p].phase.Failed?
    ensures p in Run(s, es).calls && Run(s, es).calls[p].phase.Failed?
    decreases |es|
  {
    if es == [] {
    } else {
      FailedForGood(Next(s, es[0]), es[1..], p);
    }
  }

  /** A step leaves the temporary file this rotation's, or takes its name away, unless it disturbs. */
  lemma OwnStep(s: State, e: Step, p: CallId)
    requires Inv(s) && Waiting(s, p)
    ensures var s' := Next(s, e);
            p in s'.calls && s'.calls[p].key == s.calls[p].key
            && (TempIsOwn(s, p) && !Disturbs(s, e, p) ==> TempIsOwn(s', p) || Temp !in s'.files.names)
            && (!TempIsOwn(s, p) || Disturbs(s, e, p) ==> !TempIsOwn(s', p))
  {}

  /** Only another rotation makes a temporary file again. */
  lemma {:induction false} TempStaysGone(s: State, es: seq<Step>, p: CallId)
    requires (Waiting(s, p) || Over(s, p)) && Temp !in s.files.names && Undisturbed(s, es, p)
    ensures Temp !in Run(s, es).files.names
    decreases |es|
  {
    if es == [] {
    } else {
      TempStaysGone(Next(s, es[0]), es[1..], p);
    }
  }

  lemma {:induction false} OwnThroughout(s: State, es: seq<Step>, p: CallId)
    requires Inv(s) && Waiting(s, p) && Waiting(Run(s, es), p) && Temp in Run(s, es).files.names
    ensures Run(s, es).calls[p].key == s.calls[p].key
    ensures TempIsOwn(Run(s, es), p) <==> TempIsOwn(s, p) && Undisturbed(s, es, p)
    decreases |es|
  {
    if es == [] {
    } else {
      var s1 := Next(s, es[0]);
      if Over(s1, p) { OverStaysOver(s1, es[1..], p); }
      OwnStep(s, es[0], p);
      NextKeepsInv(s, es[0]);
      OwnThroughout(s1, es[1..], p);
      if Temp !in s1.files.names && Undisturbed(s1, es[1..], p) { TempStaysGone(s1, es[1..], p); }
    }
  }

  /** A rotation that wrote its key and, after whatever run of itself and others, renames the temporary
      file into place puts its own key in service if and only if the file it wrote to was still the
      temporary one, and no other rotation opened that name or wrote to its file in between. */
  lemma SuccessServesItsKeyIff(s: State, es: seq<Step>, p: CallId)
    requires Inv(s) && p in s.calls && s.calls[p].phase.Writing?
    requires var z := Run(Next(s, Write(p, false)), es); p in z.calls && z.calls[p].phase.Publishing? && Temp in z.files.names
    ensures var w, key := Next(s, Write(p, false)), s.calls[p].key;
            var z' := Next(Run(w, es), Publish(p, false));
            && z'.calls[p].phase == Succeeded
            && (At(z'.files, KeyFile) == Some(Whole(key)) <==>
                Temp in s.files.names && s.files.names[Temp] == s.calls[p].phase.ino && Undisturbed(w, es, p))
  {
    var w := Next(s, Write(p, false));
    NextKeepsInv(s, Write(p, false));
    OwnThroughout(w, es, p);
    RunKeepsInv(w, es);
    WroteToTemp(s, p);
  }

  lemma WroteToTemp(s: State, p: CallId)
    requires Inv(s) && p in s.calls && s.calls[p].phase.Writing?
    ensures TempIsOwn(Next(s, Write(p, false)), p) <==> Temp in s.files.names && s.files.names[Temp] == s.calls[p].phase.ino
  {
    assert CallOk(s.files, s.calls[p]);
  }

  // ---- Which secrets are lost -------------------------------------------------------------

  /** The secret is whole, in service or archived. */
  predicate HoldsKey(f: Files, k: Secret) {
    exists n <- f.names :: n != Temp && At(f, n) == Some(Whole(k))
  }

  ghost predicate KeepsKeys(f: Files, f': Files) {
    forall k :: HoldsKey(f, k) ==> HoldsKey(f', k)
  }

  predicate WholeAt(f: Files, n: Name) {
    At(f, n).Some? && At(f, n).value.Whole?
  }

  /** A rename onto a name with a whole key, or a write to a file that has one and is under another
      name by now. */
  predicate LosesKey(s: State, e: Step) {
    var f := s.files;
    Enabled(s, e) &&
    match e
    case ArchiveOld(p, false) => KeyFile in f.names && WholeAt(f, Archive(s.calls[p].stamp))
    case Publish(_, false) => Temp in f.names && WholeAt(f, KeyFile)
    case RollBack(p, false) => Archive(s.calls[p].stamp) in f.names && WholeAt(f, KeyFile)
    case Write(p, false) => exists n <- f.names :: n != Temp && f.names[n] == s.calls[p].phase.ino && WholeAt(f, n)
    case Tear(p) => exists n <- f.names :: n != Temp && f.names[n] == s.calls[p].phase.ino && WholeAt(f, n)
    case _ => false
  }

  /** Where a key under a name is after a step. */
  function Whither(s: State, e: Step, n: Name): Name
    requires Enabled(s, e)
  {
    match e
    case ArchiveOld(p, false) => if n == KeyFile then Archive(s.calls[p].stamp) else n
    case RollBack(p, false) => if n == Archive(s.calls[p].stamp) then KeyFile else n
    case _ => n
  }

  lemma StillThere(s: State, e: Step, n: Name)
    requires Inv(s) && Enabled(s, e) && !LosesKey(s, e) && n != Temp && WholeAt(s.files, n)
    ensures Whither(s, e, n) != Temp && At(NextFiles(s, e), Whither(s, e, n)) == At(s.files, n)
  {}

  lemma StepKeepsKeys(s: State, e: Step)
    requires Inv(s) && !LosesKey(s, e)
    ensures KeepsKeys(s.files, Next(s, e).files)
  {
    var f, f' := s.files, Next(s, e).files;
    forall k | HoldsKey(f, k) ensures HoldsKey(f', k) {
      var n :| n in f.names && n != Temp && At(f, n) == Some(Whole(k));
      if Enabled(s, e) {
        StillThere(s, e, n);
        assert Whither(s, e, n) in f'.names;
      }
    }
  }

  lemma StepLosesKey(s: State, e: Step)
    requires Inv(s) && LosesKey(s, e)
    ensures !KeepsKeys(s.files, Next(s, e).files)
  {
    var f := s.files;
    if e.Write? || e.Tear? {
      var n :| n in f.names && n != Temp && f.names[n] == s.calls[e.p].phase.ino && WholeAt(f, n);
      LostByWrite(s, e, n);
    } else {
      LostByRename(s, e, if e.ArchiveOld? then Archive(s.calls[e.p].stamp) else KeyFile);
    }
  }

  lemma LostByWrite(s: State, e: Step, n: Name)
    requires Inv(s) && LosesKey(s, e) && (e.Write? || e.Tear?)
    requires n in s.files.names && n != Temp && s.files.names[n] == s.calls[e.p].phase.ino && WholeAt(s.files, n)
    ensures !KeepsKeys(s.files, Next(s, e).files)
  {
    var k := s.files.inodes[s.files.names[n]].key;
    assert CallOk(s.files, s.calls[e.p]);
    assert HoldsKey(s.files, k) && !HoldsKey(Next(s, e).files, k);
  }

  lemma LostByRename(s: State, e: Step, to: Name)
    requires Inv(s) && LosesKey(s, e) && (e.ArchiveOld? || e.Publish? || e.RollBack?)
    requires to == if e.ArchiveOld? then Archive(s.calls[e.p].stamp) else KeyFile
    ensures !KeepsKeys(s.files, Next(s, e).files)
  {
    var k := s.files.inodes[s.files.names[to]].key;
    assert HoldsKey(s.files, k) && !HoldsKey(Next(s, e).files, k);
  }

  ghost predicate AlwaysKeepsKeys(s: State, es: seq<Step>)
    decreases |es|
  {
    es == [] || (KeepsKeys(s.files, Next(s, es[0]).files) && AlwaysKeepsKeys(Next(s, es[0]), es[1..]))
  }

  predicate NoneLoses(s: State, es: seq<Step>)
    decreases |es|
  {
    es == [] || (!LosesKey(s, es[0]) && NoneLoses(Next(s, es[0]), es[1..]))
  }

  /** Over every interleaving of rotations: every secret in service or archived stays so at every step,
      if and only if no step renames onto a whole key or writes to one under another name. */
  lemma {:induction false} OverlapLosesNothingIff(s: State, es: seq<Step>)
    requires Inv(s)
    ensures AlwaysKeepsKeys(s, es) <==> NoneLoses(s, es)
    decreases |es|
  {
    if es == [] {
    } else {
      if LosesKey(s, es[0]) { StepLosesKey(s, es[0]); } else { StepKeepsKeys(s, es[0]); }
      NextKeepsInv(s, es[0]);
      OverlapLosesNothingIff(Next(s, es[0]), es[1..]);
    }
  }

  // ---- A rotation alone -------------------------------------------------------------------

  lemma {:induction false} RunConcat(s: State, es: seq<Step>, fs: seq<Step>)
    ensures Run(s, es + fs) == Run(Run(s, es), fs)
    decreases |es|
  {
    if es == [] {
      assert es + fs == fs;
    } else {
      assert (es + fs)[1..] == es[1..] + fs;
      RunConcat(Next(s, es[0]), es[1..], fs);
    }
  }

  lemma RunTwo(s: State, es: seq<Step>)
    requires |es| == 2
    ensures Run(s, es) == Next(Next(s, es[0]), es[1])
  {
    var t, rest := Next(s, es[0]), es[1..];
    assert Run(s, es) == Run(t, rest);
    assert Run(t, rest) == Run(Next(t, rest[0]), rest[1..]) && rest[1..] == [];
  }

  lemma RunThree(s: State, es: seq<Step>)
    requires |es| == 3
    ensures Run(s, es) == Next(Next(Next(s, es[0]), es[1]), es[2])
  {
    assert Run(s, es) == Run(Next(s, es[0]), es[1..]);
    RunTwo(Next(s, es[0]), es[1..]);
  }

  /** What is under each name. */
  function View(f: Files): Disk {
    map n | n in f.names && f.names[n] in f.inodes :: f.inodes[f.names[n]]
  }

  lemma ViewRenamed(f: Files, from: Name, to: Name)
    requires NamesOk(f) && from != to
    ensures View(Renamed(f, from, to)) == if from in View(f) then Move(View(f), from, to) else View(f)
  {}

  lemma ViewOpened(f: Files, ino: nat)
    requires NamesOk(f) && ino !in f.inodes
    ensures View(Opened(f, ino)) == View(f)[Temp := Partial]
  {}

  lemma ViewWritten(f: Files, c: Content)
    requires NamesOk(f) && Temp in f.names
    ensures View(f.(inodes := f.inodes[f.names[Temp] := c])) == View(f)[Temp := c]
  {}

  lemma ViewRemoved(f: Files)
    requires NamesOk(f)
    ensures View(f.(names := f.names - {Temp})) == View(f) - {Temp}
  {}

  /** The calls of one rotation, as it would make them; those it does not come to do nothing. */
  function Preparing(p: CallId, r: Rotation, ino: nat): seq<Step> {
    [Open(p, ino, !r.openOk), if r.writeOk then Write(p, false) else Tear(p), Ask(p, r.missed)]
  }

  function Replacing(p: CallId, r: Rotation): seq<Step> {
    [ArchiveOld(p, !r.archiveOk), Publish(p, !r.publishOk)]
  }

  function Undoing(p: CallId, r: Rotation): seq<Step> {
    [RollBack(p, !r.rollbackOk), Remove(p, !r.removeOk)]
  }

  /** One call of the rotation p as a change of what is under the names. */
  function DiskAfter(d: Disk, c: Call, e: Step): Disk {
    match e
    case Open(_, _, false) => if c.phase.Opening? then d[Temp := Partial] else d
    case Write(_, false) => if c.phase.Writing? then d[Temp := Whole(c.key)] else d
    case Tear(_) => if c.phase.Writing? then d[Temp := Partial] else d
    case ArchiveOld(_, false) => if c.phase.Archiving? && KeyFile in d then Move(d, KeyFile, Archive(c.stamp)) else d
    case Publish(_, false) => if c.phase.Publishing? && Temp in d then Move(d, Temp, KeyFile) else d
    case RollBack(_, false) => if c.phase.RollingBack? && Archive(c.stamp) in d then Move(d, Archive(c.stamp), KeyFile) else d
    case Remove(_, false) => if c.phase.Removing? then d - {Temp} else d
    case _ => d
  }

  predicate InHand(s: State, p: CallId) {
    p in s.calls && (s.calls[p].phase.Writing? ==> Temp in s.files.names && s.files.names[Temp] == s.calls[p].phase.ino)
  }

  predicate IsOf(s: State, p: CallId, r: Rotation) {
    p in s.calls && s.calls[p].key == r.newKey && s.calls[p].stamp == r.stamp
  }

  lemma StepOnDisk(s: State, e: Step)
    requires Inv(s) && InHand(s, e.p) && !e.Begin?
    requires e.Open? ==> e.ino !in s.files.inodes
    ensures View(Next(s, e).files) == DiskAfter(View(s.files), s.calls[e.p], e) && InHand(Next(s, e), e.p)
  {
    var f, c := s.files, s.calls[e.p];
    match e
    case Open(_, ino, _) => ViewOpened(f, ino);
    case Write(_, _) => if c.phase.Writing? { ViewWritten(f, Whole(c.key)); }
    case Tear(_) => if c.phase.Writing? { ViewWritten(f, Partial); }
    case ArchiveOld(_, _) => ViewRenamed(f, KeyFile, Archive(c.stamp));
    case Publish(_, _) => ViewRenamed(f, Temp, KeyFile);
    case RollBack(_, _) => ViewRenamed(f, Archive(c.stamp), KeyFile);
    case Remove(_, _) => ViewRemoved(f);
    case _ =>
  }


  /** What the three parts of a rotation leave under the names, and the phase the second ends in. */
  function PreparedDisk(d: Disk, r: Rotation): Disk {
    if !r.openOk then d else if !r.writeOk then d[Temp := Partial] else Written(d, r)
  }

  function ReplacedDisk(d: Disk, r: Rotation): Disk
    requires Temp in d
  {
    if HadOld(d, r) && !r.archiveOk then d
    else
      var archived := if HadOld(d, r) then Move(d, KeyFile, Archive(r.stamp)) else d;
      if r.publishOk then Move(archived, Temp, KeyFile) else archived
  }

  function ReplacedPhase(d: Disk, r: Rotation): Phase {
    if HadOld(d, r) && !r.archiveOk then Removing
    else if r.publishOk then Succeeded
    else if HadOld(d, r) then RollingBack else Removing
  }

  function UndoneDisk(d: Disk, phase: Phase, r: Rotation): Disk
    requires phase.RollingBack? ==> Archive(r.stamp) in d
  {
    match phase
    case RollingBack => Removed(if r.rollbackOk then Move(d, Archive(r.stamp), KeyFile) else d, Temp, r.removeOk)
    case Removing => Removed(d, Temp, r.removeOk)
    case _ => d
  }

  lemma FinalInParts(d: Disk, r: Rotation)
    requires r.openOk && r.writeOk
    ensures var w := Written(d, r);
            && (ReplacedPhase(w, r).RollingBack? ==> Archive(r.stamp) in ReplacedDisk(w, r))
            && Final(d, r) == UndoneDisk(ReplacedDisk(w, r), ReplacedPhase(w, r), r)
            && (ReplacedPhase(w, r).Succeeded? <==> Succeeds(d, r))
  {}

  /** A state of the rotation p: its disk and its phase. */
  ghost predicate Shows(s: State, p: CallId, r: Rotation, d: Disk) {
    Inv(s) && IsOf(s, p, r) && InHand(s, p) && View(s.files) == d
  }

  lemma StepOf(s: State, e: Step, r: Rotation)
    requires Inv(s) && InHand(s, e.p) && IsOf(s, e.p, r) && !e.Begin?
    requires e.Open? ==> e.ino !in s.files.inodes
    ensures var z := Next(s, e);
            Shows(z, e.p, r, DiskAfter(View(s.files), s.calls[e.p], e))
  {
    StepOnDisk(s, e);
    NextKeepsInv(s, e);
  }

  lemma FileOpened(s: State, p: CallId, r: Rotation, ino: nat)
    requires Inv(s) && IsOf(s, p, r) && s.calls[p].phase.Opening? && ino !in s.files.inodes
    ensures var z, d := Next(s, Open(p, ino, !r.openOk)), View(s.files);
            Shows(z, p, r, if r.openOk then d[Temp := Partial] else d) && if r.openOk then z.calls[p].phase.Writing? else z.calls[p].phase == Failed
  {
    StepOf(s, Open(p, ino, !r.openOk), r);
  }

  lemma FileFilledInto(s: State, p: CallId, r: Rotation, d: Disk)
    requires Shows(s, p, r, d[Temp := Partial]) && s.calls[p].phase.Writing?
    ensures var z := Next(s, if r.writeOk then Write(p, false) else Tear(p));
            Shows(z, p, r, if r.writeOk then Written(d, r) else d[Temp := Partial])
            && z.calls[p].phase == if r.writeOk then Asking else Failed
  {
    assert d[Temp := Partial][Temp := Whole(r.newKey)] == Written(d, r);
    assert d[Temp := Partial][Temp := Partial] == d[Temp := Partial];
    if r.writeOk {
      StepOf(s, Write(p, false), r);
    } else {
      StepOf(s, Tear(p), r);
    }
  }

  lemma FileFilled(s: State, p: CallId, r: Rotation, d: Disk)
    requires Shows(s, p, r, if r.openOk then d[Temp := Partial] else d)
    requires if r.openOk then s.calls[p].phase.Writing? else s.calls[p].phase == Failed
    ensures var z := Next(s, if r.writeOk then Write(p, false) else Tear(p));
            Shows(z, p, r, PreparedDisk(d, r)) && z.calls[p].phase == if r.openOk && r.writeOk then Asking else Failed
  {
    if !r.openOk {
      assert Next(s, if r.writeOk then Write(p, false) else Tear(p)) == s;
    } else {
      FileFilledInto(s, p, r, d);
    }
  }

  lemma Prepared(s: State, p: CallId, r: Rotation, ino: nat)
    requires Inv(s) && IsOf(s, p, r) && s.calls[p].phase.Opening? && ino !in s.files.inodes
    ensures var z, d := Run(s, Preparing(p, r, ino)), PreparedDisk(View(s.files), r);
            && Shows(z, p, r, d)
            && z.calls[p].phase == if !(r.openOk && r.writeOk) then Failed else if HadOld(d, r) then Archiving else Publishing(false)
  {
    var es := Preparing(p, r, ino);
    RunThree(s, es);
    FileOpened(s, p, r, ino);
    FileFilled(Next(s, es[0]), p, r, View(s.files));
    var z := Next(Next(s, es[0]), es[1]);
    StepOf(z, es[2], r);
  }

  lemma Replaced(s: State, p: CallId, r: Rotation)
    requires Inv(s) && IsOf(s, p, r) && Temp in View(s.files)
    requires s.calls[p].phase == if HadOld(View(s.files), r) then Archiving else Publishing(false)
    ensures var z, d := Run(s, Replacing(p, r)), View(s.files);
            && Inv(z) && IsOf(z, p, r) && View(z.files) == ReplacedDisk(d, r) && z.calls[p].phase == ReplacedPhase(d, r)
  {
    var es := Replacing(p, r);
    RunTwo(s, es);
    StepOf(s, es[0], r);
    StepOf(Next(s, es[0]), es[1], r);
  }

  lemma Undone(s: State, p: CallId, r: Rotation)
    requires Inv(s) && IsOf(s, p, r) && Over(s, p)
    requires s.calls[p].phase.RollingBack? ==> Archive(r.stamp) in View(s.files)
    ensures var z := Run(s, Undoing(p, r));
            && p in z.calls && z.calls[p].phase == (if s.calls[p].phase.Succeeded? then Succeeded else Failed)
            && View(z.files) == UndoneDisk(View(s.files), s.calls[p].phase, r)
  {
    var es := Undoing(p, r);
    RunTwo(s, es);
    StepOf(s, es[0], r);
    StepOf(Next(s, es[0]), es[1], r);
  }

  lemma FailedStays(s: State, p: CallId, r: Rotation)
    requires p in s.calls && s.calls[p].phase.Failed?
    ensures Run(s, Replacing(p, r)) == s && Run(s, Undoing(p, r)) == s
  {
    RunTwo(s, Replacing(p, r));
    RunTwo(s, Undoing(p, r));
  }

  /** A rotation that nobody interrupts does exactly what `KeyStore.Rotate` does: it leaves the same
      disk, and succeeds exactly when that does. */
  lemma AloneIsRotate(s: State, p: CallId, r: Rotation, ino: nat)
    requires Inv(s) && IsOf(s, p, r) && s.calls[p].phase.Opening? && ino !in s.files.inodes
    ensures var z := Run(s, Preparing(p, r, ino) + Replacing(p, r) + Undoing(p, r));
            && View(z.files) == Final(View(s.files), r)
            && p in z.calls && z.calls[p].phase == if Succeeds(View(s.files), r) then Succeeded else Failed
  {
    var z1 := Run(s, Preparing(p, r, ino));
    Prepared(s, p, r, ino);
    RunConcat(s, Preparing(p, r, ino), Replacing(p, r));
    RunConcat(s, Preparing(p, r, ino) + Replacing(p, r), Undoing(p, r));
    if r.openOk && r.writeOk {
      FinalInParts(View(s.files), r);
      Replaced(z1, p, r);
      Undone(Run(z1, Replacing(p, r)), p, r);
    } else {
      FailedStays(z1, p, r);
    }
  }

  // ---- Two runs in which no call fails by itself ------------------------------------------

  function InService(k0: Secret): State {
    State(Files(map[0 := Whole(k0)], map[KeyFile := 0]), map[])
  }

  function BothBegin(kA: Secret, tA: nat, kB: Secret, tB: nat): seq<Step> {
    [Begin(1, kA, tA), Begin(2, kB, tB), Open(1, 1, false)]
  }

  /** The second opens the temporary file after the first has written, or, with `early`, before. */
  function BothWrite(early: bool): seq<Step> {
    if early then [Open(2, 2, false), Write(1, false), Write(2, false)] else [Write(1, false), Open(2, 2, false), Write(2, false)]
  }

  function FirstPublishes(): seq<Step> {
    [Ask(1, false), ArchiveOld(1, false), Publish(1, false)]
  }

  function SecondArchives(): seq<Step> {
    [Ask(2, false), ArchiveOld(2, false), Publish(2, false)]
  }

  function SecondRollsBack(): seq<Step> {
    [RollBack(2, false), Remove(2, false)]
  }

  function SecondFindsNoKey(): seq<Step> {
    [Ask(1, false), ArchiveOld(1, false), Ask(2, false)]
  }

  function FirstRollsBack(): seq<Step> {
    [Publish(2, false), Publish(1, false), RollBack(1, false)]
  }

  function Calls(kA: Secret, tA: nat, a: Phase, kB: Secret, tB: nat, b: Phase): map<CallId, Call> {
    map[1 := Call(kA, tA, a), 2 := Call(kB, tB, b)]
  }

  function Inodes(k0: Secret, kB: Secret): map<nat, Content> {
    map[0 := Whole(k0), 1 := Whole(kB)]
  }

  /** Both rotations at work: the old key in service, the second one's key under the temporary name. */
  function BothAsk(k0: Secret, kA: Secret, tA: nat, kB: Secret, tB: nat): State {
    State(Files(Inodes(k0, kB), map[KeyFile := 0, Temp := 1]), Calls(kA, tA, Asking, kB, tB, Asking))
  }

  function FirstOpened(k0: Secret, kA: Secret, tA: nat, kB: Secret, tB: nat): State {
    State(Files(map[0 := Whole(k0), 1 := Partial], map[KeyFile := 0, Temp := 1]), Calls(kA, tA, Writing(1), kB, tB, Opening))
  }

  lemma BothBegun(k0: Secret, kA: Secret, tA: nat, kB: Secret, tB: nat)
    requires k0 != kA && k0 != kB && kA != kB
    ensures Next(Next(InService(k0), Begin(1, kA, tA)), Begin(2, kB, tB)) == State(InService(k0).files, Calls(kA, tA, Opening, kB, tB, Opening))
  {
    assert Next(InService(k0), Begin(1, kA, tA)) == State(InService(k0).files, map[1 := Call(kA, tA, Opening)]);
  }

  lemma FirstOpens(k0: Secret, kA: Secret, tA: nat, kB: Secret, tB: nat)
    requires k0 != kA && k0 != kB && kA != kB
    ensures Run(InService(k0), BothBegin(kA, tA, kB, tB)) == FirstOpened(k0, kA, tA, kB, tB)
  {
    RunThree(InService(k0), BothBegin(kA, tA, kB, tB));
    BothBegun(k0, kA, tA, kB, tB);
    OpenStep(k0, kA, tA, kB, tB);
  }

  lemma OpenStep(k0: Secret, kA: Secret, tA: nat, kB: Secret, tB: nat)
    ensures Next(State(InService(k0).files, Calls(kA, tA, Opening, kB, tB, Opening)), Open(1, 1, false)) == FirstOpened(k0, kA, tA, kB, tB)
  {}

  lemma WriteInTurn(s: State, k0: Secret, kA: Secret, tA: nat, kB: Secret, tB: nat)
    requires s == FirstOpened(k0, kA, tA, kB, tB)
    ensures Next(Next(s, Write(1, false)), Open(2, 2, false)) == s.(calls := Calls(kA, tA, Asking, kB, tB, Writing(1)))
  {
    FirstWrites(s, k0, kA, tA, kB, tB);
    var b := Next(Next(s, Write(1, false)), Open(2, 2, false));
    assert b.files.inodes == s.files.inodes && b.files.names == s.files.names;
  }

  lemma FirstWrites(s: State, k0: Secret, kA: Secret, tA: nat, kB: Secret, tB: nat)
    requires s == FirstOpened(k0, kA, tA, kB, tB)
    ensures Next(s, Write(1, false)) == State(Files(Inodes(k0, kA), s.files.names), Calls(kA, tA, Asking, kB, tB, Opening))
  {}

  lemma OpenThenWrite(s: State, k0: Secret, kA: Secret, tA: nat, kB: Secret, tB: nat)
    requires s == FirstOpened(k0, kA, tA, kB, tB)
    ensures Next(Next(s, Open(2, 2, false)), Write(1, false))
         == State(Files(Inodes(k0, kA), s.files.names), Calls(kA, tA, Asking, kB, tB, Writing(1)))
  {
    assert Next(s, Open(2, 2, false)) == s.(calls := Calls(kA, tA, Writing(1), kB, tB, Writing(1)));
  }

  lemma SecondWrites(s: State, k0: Secret, kA: Secret, tA: nat, kB: Secret, tB: nat)
    requires s.calls == Calls(kA, tA, Asking, kB, tB, Writing(1)) && s.files.names == map[KeyFile := 0, Temp := 1]
    requires s.files.inodes.Keys == {0, 1} && s.files.inodes[0] == Whole(k0)
    ensures Next(s, Write(2, false)) == BothAsk(k0, kA, tA, kB, tB)
  {
    assert Next(s, Write(2, false)).files.inodes == Inodes(k0, kB);
  }

  lemma BothAtWork(k0: Secret, kA: Secret, tA: nat, kB: Secret, tB: nat, early: bool)
    requires k0 != kA && k0 != kB && kA != kB
    ensures Run(InService(k0), BothBegin(kA, tA, kB, tB) + BothWrite(early)) == BothAsk(k0, kA, tA, kB, tB)
  {
    FirstOpens(k0, kA, tA, kB, tB);
    RunConcat(InService(k0), BothBegin(kA, tA, kB, tB), BothWrite(early));
    var s := FirstOpened(k0, kA, tA, kB, tB);
    RunThree(s, BothWrite(early));
    if early { OpenThenWrite(s, k0, kA, tA, kB, tB); } else { WriteInTurn(s, k0, kA, tA, kB, tB); }
    SecondWrites(Next(Next(s, BothWrite(early)[0]), BothWrite(early)[1]), k0, kA, tA, kB, tB);
  }

  lemma FirstArchives(k0: Secret, kA: Secret, tA: nat, kB: Secret, tB: nat)
    ensures Next(Next(BothAsk(k0, kA, tA, kB, tB), Ask(1, false)), ArchiveOld(1, false))
         == State(Files(Inodes(k0, kB), map[Archive(tA) := 0, Temp := 1]), Calls(kA, tA, Publishing(true), kB, tB, Asking))
  {
    var s := BothAsk(k0, kA, tA, kB, tB);
    var a := Next(s, Ask(1, false));
    assert a == s.(calls := Calls(kA, tA, Archiving, kB, tB, Asking));
    assert Next(a, ArchiveOld(1, false)).files.names == map[Archive(tA) := 0, Temp := 1];
  }

  lemma FirstPublished(k0: Secret, kA: Secret, tA: nat, kB: Secret, tB: nat)
    ensures Run(BothAsk(k0, kA, tA, kB, tB), FirstPublishes())
         == State(Files(Inodes(k0, kB), map[Archive(tA) := 0, KeyFile := 1]), Calls(kA, tA, Succeeded, kB, tB, Asking))
  {
    RunThree(BothAsk(k0, kA, tA, kB, tB), FirstPublishes());
    FirstArchives(k0, kA, tA, kB, tB);
    PublishStep(k0, kA, tA, kB, tB);
  }

  lemma PublishStep(k0: Secret, kA: Secret, tA: nat, kB: Secret, tB: nat)
    ensures Next(State(Files(Inodes(k0, kB), map[Archive(tA) := 0, Temp := 1]), Calls(kA, tA, Publishing(true), kB, tB, Asking)), Publish(1, false))
         == State(Files(Inodes(k0, kB), map[Archive(tA) := 0, KeyFile := 1]), Calls(kA, tA, Succeeded, kB, tB, Asking))
  {}

  function BothArchived(tA: nat, tB: nat): map<Name, nat> {
    map[Archive(tA) := 0][Archive(tB) := 1]
  }

  lemma SecondArchived(s: State, k0: Secret, kA: Secret, tA: nat, kB: Secret, tB: nat)
    requires s == State(Files(Inodes(k0, kB), map[Archive(tA) := 0, KeyFile := 1]), Calls(kA, tA, Succeeded, kB, tB, Asking))
    ensures Run(s, SecondArchives()) == State(Files(Inodes(k0, kB), BothArchived(tA, tB)), Calls(kA, tA, Succeeded, kB, tB, RollingBack))
  {
    RunThree(s, SecondArchives());
    var a := Next(s, Ask(2, false));
    assert a == s.(calls := Calls(kA, tA, Succeeded, kB, tB, Archiving));
    var b := Next(a, ArchiveOld(2, false));
    assert b == State(Files(Inodes(k0, kB), BothArchived(tA, tB)), Calls(kA, tA, Succeeded, kB, tB, Publishing(true)));
  }

  function Swapped(k0: Secret, tA: nat, kB: Secret, tB: nat): Files {
    Files(Inodes(k0, kB), if tA == tB then map[KeyFile := 1] else map[Archive(tA) := 0, KeyFile := 1])
  }

  lemma SecondRolledBack(s: State, k0: Secret, kA: Secret, tA: nat, kB: Secret, tB: nat)
    requires s == State(Files(Inodes(k0, kB), BothArchived(tA, tB)), Calls(kA, tA, Succeeded, kB, tB, RollingBack))
    ensures Run(s, SecondRollsBack()) == State(Swapped(k0, tA, kB, tB), Calls(kA, tA, Succeeded, kB, tB, Failed))
  {
    RunTwo(s, SecondRollsBack());
    var b := Next(s, RollBack(2, false));
    assert b.calls == Calls(kA, tA, Succeeded, kB, tB, Removing);
    assert b.files.names == Swapped(k0, tA, kB, tB).names;
  }

  lemma SwappedKeys(k0: Secret, kA: Secret, tA: nat, kB: Secret, tB: nat)
    requires k0 != kA && k0 != kB && kA != kB
    ensures var f := Swapped(k0, tA, kB, tB);
            At(f, KeyFile) == Some(Whole(kB)) && !HoldsKey(f, kA) && (HoldsKey(f, k0) <==> tA != tB)
  {
    var f := Swapped(k0, tA, kB, tB);
    if tA != tB { assert Archive(tA) in f.names && At(f, Archive(tA)) == Some(Whole(k0)); }
  }

  function SwapRun(kA: Secret, tA: nat, kB: Secret, tB: nat, early: bool): seq<Step> {
    BothBegin(kA, tA, kB, tB) + BothWrite(early) + FirstPublishes() + SecondArchives() + SecondRollsBack()
  }

  /** The first rotation archives the old key and renames the temporary file into place, which holds the
      second one's key: it reports a success under a key nobody can use. The second finds no temporary
      file and rolls back. In one second, its archive has overwritten the old key before. */
  lemma SuccessCanServeAnothersKey(k0: Secret, kA: Secret, tA: nat, kB: Secret, tB: nat, early: bool)
    requires k0 != kA && k0 != kB && kA != kB
    ensures var z := Run(InService(k0), SwapRun(kA, tA, kB, tB, early));
            && z.calls == Calls(kA, tA, Succeeded, kB, tB, Failed)
            && At(z.files, KeyFile) == Some(Whole(kB)) && !HoldsKey(z.files, kA)
            && (HoldsKey(z.files, k0) <==> tA != tB)
  {
    var s, es := InService(k0), BothBegin(kA, tA, kB, tB) + BothWrite(early);
    BothAtWork(k0, kA, tA, kB, tB, early);
    RunConcat(s, es, FirstPublishes());
    FirstPublished(k0, kA, tA, kB, tB);
    RunConcat(s, es + FirstPublishes(), SecondArchives());
    SecondArchived(Run(s, es + FirstPublishes()), k0, kA, tA, kB, tB);
    RunConcat(s, es + FirstPublishes() + SecondArchives(), SecondRollsBack());
    SecondRolledBack(Run(s, es + FirstPublishes() + SecondArchives()), k0, kA, tA, kB, tB);
    SwappedKeys(k0, kA, tA, kB, tB);
  }

  lemma SecondFoundNoKey(k0: Secret, kA: Secret, tA: nat, kB: Secret, tB: nat)
    ensures Run(BothAsk(k0, kA, tA, kB, tB), SecondFindsNoKey())
         == State(Files(Inodes(k0, kB), map[Archive(tA) := 0, Temp := 1]), Calls(kA, tA, Publishing(true), kB, tB, Publishing(false)))
  {
    RunThree(BothAsk(k0, kA, tA, kB, tB), SecondFindsNoKey());
    FirstArchives(k0, kA, tA, kB, tB);
    AskStep(k0, kA, tA, kB, tB);
  }

  lemma AskStep(k0: Secret, kA: Secret, tA: nat, kB: Secret, tB: nat)
    ensures var s := State(Files(Inodes(k0, kB), map[Archive(tA) := 0, Temp := 1]), Calls(kA, tA, Publishing(true), kB, tB, Asking));
            Next(s, Ask(2, false)) == s.(calls := Calls(kA, tA, Publishing(true), kB, tB, Publishing(false)))
  {}

  lemma SecondPublishes(s: State, k0: Secret, kA: Secret, tA: nat, kB: Secret, tB: nat)
    requires s == State(Files(Inodes(k0, kB), map[Archive(tA) := 0, Temp := 1]), Calls(kA, tA, Publishing(true), kB, tB, Publishing(false)))
    ensures Next(s, Publish(2, false))
         == State(Files(Inodes(k0, kB), map[Archive(tA) := 0, KeyFile := 1]), Calls(kA, tA, Publishing(true), kB, tB, Succeeded))
  {}

  lemma FirstRolledBack(s: State, k0: Secret, kA: Secret, tA: nat, kB: Secret, tB: nat)
    requires s == State(Files(Inodes(k0, kB), map[Archive(tA) := 0, Temp := 1]), Calls(kA, tA, Publishing(true), kB, tB, Publishing(false)))
    ensures Run(s, FirstRollsBack()) == State(Files(Inodes(k0, kB), map[KeyFile := 0]), Calls(kA, tA, Removing, kB, tB, Succeeded))
  {
    RunThree(s, FirstRollsBack());
    SecondPublishes(s, k0, kA, tA, kB, tB);
    FirstUndoes(Next(s, Publish(2, false)), k0, kA, tA, kB, tB);
  }

  lemma FirstFindsNoTemp(s: State, k0: Secret, kA: Secret, tA: nat, kB: Secret, tB: nat)
    requires s == State(Files(Inodes(k0, kB), map[Archive(tA) := 0, KeyFile := 1]), Calls(kA, tA, Publishing(true), kB, tB, Succeeded))
    ensures Next(s, Publish(1, false)) == s.(calls := Calls(kA, tA, RollingBack, kB, tB, Succeeded))
  {}

  lemma FirstUndoes(s: State, k0: Secret, kA: Secret, tA: nat, kB: Secret, tB: nat)
    requires s == State(Files(Inodes(k0, kB), map[Archive(tA) := 0, KeyFile := 1]), Calls(kA, tA, Publishing(true), kB, tB, Succeeded))
    ensures Next(Next(s, Publish(1, false)), RollBack(1, false))
         == State(Files(Inodes(k0, kB), map[KeyFile := 0]), Calls(kA, tA, Removing, kB, tB, Succeeded))
  {
    FirstFindsNoTemp(s, k0, kA, tA, kB, tB);
    assert Next(s.(calls := Calls(kA, tA, RollingBack, kB, tB, Succeeded)), RollBack(1, false)).files.names == map[KeyFile := 0];
  }

  function UndoRun(kA: Secret, tA: nat, kB: Secret, tB: nat, early: bool): seq<Step> {
    BothBegin(kA, tA, kB, tB) + BothWrite(early) + SecondFindsNoKey() + FirstRollsBack()
  }

  /** The second rotation finds no key file, renames the temporary file into place and succeeds with its
      own key; the first then finds none and rolls the old key back over it: the new key is gone. */
  lemma RollbackCanUndoASuccess(k0: Secret, kA: Secret, tA: nat, kB: Secret, tB: nat, early: bool)
    requires k0 != kA && k0 != kB && kA != kB
    ensures var z := Run(InService(k0), UndoRun(kA, tA, kB, tB, early));
            && z.calls == Calls(kA, tA, Removing, kB, tB, Succeeded)
            && At(z.files, KeyFile) == Some(Whole(k0)) && !HoldsKey(z.files, kB)
  {
    var s, es := InService(k0), BothBegin(kA, tA, kB, tB) + BothWrite(early);
    BothAtWork(k0, kA, tA, kB, tB, early);
    RunConcat(s, es, SecondFindsNoKey());
    SecondFoundNoKey(k0, kA, tA, kB, tB);
    RunConcat(s, es + SecondFindsNoKey(), FirstRollsBack());
    FirstRolledBack(Run(s, es + SecondFindsNoKey()), k0, kA, tA, kB, tB);
  }
}
