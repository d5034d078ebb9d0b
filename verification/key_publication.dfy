/** Publishing the server's signing key: any number of starts that read the key file and, finding
    none, write a key under a temporary name and hard-link it into place. Every file-system call is
    a step that can fail, and a start can stop before any of them. */
module KeyPublication {
  import opened Prelude

  type Secret = string

  /** A temporary file name: the operating system's process id and a counter. A later start can get
      the id, and so the name, of one that is gone; with one volume in several containers, also of
      one that is still running. */
  type Slot = nat

  datatype Content = Partial | Whole(key: Secret)

  datatype Files = Files(inodes: map<nat, Content>, temp: map<Slot, nat>, keyFile: Option<nat>)

  datatype Phase =
    | Reading
    | Creating
    | Writing(ino: nat)
    | Linking(ino: nat)
    | Unlinking(published: bool)
    | Rereading
    | Returned(key: Secret)
    | Exited

  /** One start, with the key it would publish. */
  datatype Start = Start(slot: Slot, key: Secret, mayGenerate: bool, phase: Phase)

  type StartId = nat

  datatype State = State(files: Files, starts: map<StartId, Start>, links: seq<Secret>)

  datatype Step =
    | Begin(p: StartId, slot: Slot, key: Secret, mayGenerate: bool)
    | Read(p: StartId, fails: bool)
    | Create(p: StartId, ino: nat, fails: bool)
    | Write(p: StartId, fails: bool)
    | Link(p: StartId, fails: bool)
    | Unlink(p: StartId, fails: bool)
    | Stop(p: StartId)

  const INIT := State(Files(map[], map[], None), map[], [])

  predicate Live(t: Start) {
    !t.phase.Returned? && !t.phase.Exited?
  }

  /** What the key file holds. */
  function KeyOn(f: Files): Option<Content> {
    if f.keyFile.Some? && f.keyFile.value in f.inodes then Some(f.inodes[f.keyFile.value]) else None
  }

  /** `read_sk`: an error on opening or reading counts as no file, a malformed file is fatal. */
  function AfterRead(f: Files, fails: bool, missing: Phase): Phase {
    var content: Option<Content> := if fails then None else KeyOn(f);
    match content
    case None => missing
    case Some(Partial) => Exited
    case Some(Whole(k)) => Returned(k)
  }

  /** Opening the temporary name truncates the file it already names, if any. */
  function Opened(f: Files, slot: Slot, ino: nat): Files {
    var i := if slot in f.temp then f.temp[slot] else ino;
    f.(inodes := f.inodes[i := Partial], temp := f.temp[slot := i])
  }

  predicate Enabled(s: State, e: Step) {
    match e
    case Begin(p, _, _, _) => p !in s.starts
    case Read(p, _) => p in s.starts && (s.starts[p].phase.Reading? || s.starts[p].phase.Rereading?)
    case Create(p, ino, _) => p in s.starts && s.starts[p].phase.Creating? && ino !in s.files.inodes
    case Write(p, _) => p in s.starts && s.starts[p].phase.Writing?
    case Link(p, _) => p in s.starts && s.starts[p].phase.Linking?
    case Unlink(p, _) => p in s.starts && s.starts[p].phase.Unlinking?
    case Stop(p) => p in s.starts && Live(s.starts[p])
  }

  function NextFiles(s: State, e: Step): Files
    requires Enabled(s, e)
  {
    var f := s.files;
    match e
    case Create(p, ino, false) => Opened(f, s.starts[p].slot, ino)
    case Write(p, false) => f.(inodes := f.inodes[s.starts[p].phase.ino := Whole(s.starts[p].key)])
    case Link(p, false) =>
      if f.keyFile.None? && s.starts[p].slot in f.temp then f.(keyFile := Some(f.temp[s.starts[p].slot])) else f
    case Unlink(p, false) => f.(temp := f.temp - {s.starts[p].slot})
    case _ => f
  }

  function NextPhase(s: State, e: Step): Phase
    requires Enabled(s, e)
  {
    var f := s.files;
    match e
    case Begin(_, _, _, _) => Reading
    case Read(p, fails) =>
      var t := s.starts[p];
      AfterRead(f, fails, if t.phase.Reading? && t.mayGenerate then Creating else Exited)
    case Create(p, ino, fails) => if fails then Unlinking(false) else Writing(Opened(f, s.starts[p].slot, ino).temp[s.starts[p].slot])
    case Write(p, fails) => if fails then Unlinking(false) else Linking(s.starts[p].phase.ino)
    case Link(p, fails) => Unlinking(!fails && f.keyFile.None? && s.starts[p].slot in f.temp)
    case Unlink(p, _) => if s.starts[p].phase.published then Returned(s.starts[p].key) else Rereading
    case Stop(_) => Exited
  }

  function Next(s: State, e: Step): State {
    if !Enabled(s, e) then s
    else
      var t := match e
        case Begin(p, slot, key, mayGenerate) => Start(slot, key, mayGenerate, Reading)
        case _ => s.starts[e.p];
      State(NextFiles(s, e),
            s.starts[e.p := t.(phase := NextPhase(s, e))],
            if NextFiles(s, e).keyFile != s.files.keyFile then s.links + [t.key] else s.links)
  }

  function Run(s: State, es: seq<Step>): State
    decreases |es|
  {
    if es == [] then s else Run(Next(s, es[0]), es[1..])
  }

  // ---- Invariants -------------------------------------------------------------------------

  predicate KeyIntact(f: Files) {
    f.keyFile.Some? ==> KeyOn(f).Some? && KeyOn(f).value.Whole?
  }

  ghost predicate NamesOk(f: Files) {
    && (forall a <- f.temp :: f.temp[a] in f.inodes)
    && (forall a, b :: a in f.temp && b in f.temp && f.temp[a] == f.temp[b] ==> a == b)
    && (f.keyFile.Some? ==> f.keyFile.value in f.inodes)
  }

  ghost predicate FilesOk(f: Files) {
    NamesOk(f) && KeyIntact(f)
  }

  predicate StartOk(f: Files, t: Start) {
    match t.phase
    case Writing(ino) => t.slot in f.temp && f.temp[t.slot] == ino && f.keyFile != Some(ino)
    case Linking(ino) =>
      t.slot in f.temp && f.temp[t.slot] == ino && f.keyFile != Some(ino) && ino in f.inodes && f.inodes[ino] == Whole(t.key)
    case Unlinking(true) => KeyOn(f) == Some(Whole(t.key))
    case Returned(k) => KeyOn(f) == Some(Whole(k))
    case _ => true
  }

  ghost predicate SlotsOk(starts: map<StartId, Start>) {
    forall p, q :: p in starts && q in starts && Live(starts[p]) && Live(starts[q]) && starts[p].slot == starts[q].slot ==> p == q
  }

  /** At most one link was ever made, and the key file is what it linked. */
  predicate LinksOk(f: Files, links: seq<Secret>) {
    if f.keyFile.None? then links == [] else |links| == 1 && KeyOn(f) == Some(Whole(links[0]))
  }

  ghost predicate Inv(s: State) {
    && FilesOk(s.files) && SlotsOk(s.starts) && LinksOk(s.files, s.links)
    && forall p <- s.starts :: StartOk(s.files, s.starts[p])
  }

  /** A start opens a temporary name that an earlier start with the same name left behind as a second
      name of the key file itself, and so truncates it. */
  predicate Overwrites(s: State, e: Step) {
    && e.Create? && !e.fails && Enabled(s, e)
    && s.starts[e.p].slot in s.files.temp && s.files.keyFile == Some(s.files.temp[s.starts[e.p].slot])
  }

  /** A start's temporary name is none of a start that is still running. */
  predicate BeginsApart(s: State, e: Step) {
    e.Begin? ==> forall q <- s.starts :: Live(s.starts[q]) ==> s.starts[q].slot != e.slot
  }

  /** So in every step of a run: the process ids of the starts that run at once are distinct. */
  predicate SlotsApart(s: State, es: seq<Step>)
    decreases |es|
  {
    es == [] || (BeginsApart(s, es[0]) && SlotsApart(Next(s, es[0]), es[1..]))
  }

  lemma NextFilesOk(s: State, e: Step)
    requires Inv(s) && Enabled(s, e) && !Overwrites(s, e)
    ensures FilesOk(NextFiles(s, e)) && LinksOk(NextFiles(s, e), Next(s, e).links)
    ensures s.files.keyFile.Some? ==> KeyOn(NextFiles(s, e)) == KeyOn(s.files) && NextFiles(s, e).keyFile == s.files.keyFile
  {}

  lemma OthersStayOk(s: State, e: Step, q: StartId)
    requires Inv(s) && Enabled(s, e) && !Overwrites(s, e) && q in s.starts && q != e.p
    ensures StartOk(NextFiles(s, e), s.starts[q])
  {}

  lemma MoverStaysOk(s: State, e: Step)
    requires Inv(s) && Enabled(s, e) && !Overwrites(s, e)
    ensures StartOk(NextFiles(s, e), Next(s, e).starts[e.p])
  {}

  lemma NextKeepsInv(s: State, e: Step)
    requires Inv(s) && BeginsApart(s, e) && !Overwrites(s, e)
    ensures Inv(Next(s, e))
    ensures s.files.keyFile.Some? ==> KeyOn(Next(s, e).files) == KeyOn(s.files)
  {
    if Enabled(s, e) {
      NextFilesOk(s, e);
      MoverStaysOk(s, e);
      var s' := Next(s, e);
      forall q | q in s'.starts ensures StartOk(s'.files, s'.starts[q]) {
        if q != e.p { OthersStayOk(s, e, q); }
      }
    }
  }

  predicate NoOverwrite(s: State, es: seq<Step>)
    decreases |es|
  {
    es == [] || (!Overwrites(s, es[0]) && NoOverwrite(Next(s, es[0]), es[1..]))
  }

  lemma {:induction false} RunKeepsInv(s: State, es: seq<Step>)
    requires Inv(s) && SlotsApart(s, es) && NoOverwrite(s, es)
    ensures Inv(Run(s, es))
    ensures s.files.keyFile.Some? ==> KeyOn(Run(s, es).files) == KeyOn(s.files)
    decreases |es|
  {
    if es == [] {
    } else {
      NextKeepsInv(s, es[0]);
      RunKeepsInv(Next(s, es[0]), es[1..]);
    }
  }

  // ---- While first reads tell the truth ---------------------------------------------------

  /** No start takes an existing key file for a missing one. */
  predicate ReadsTrue(es: seq<Step>) {
    forall i :: 0 <= i < |es| && es[i].Read? ==> !es[i].fails
  }

  predicate CreatingOk(f: Files, t: Start) {
    t.phase.Creating? && t.slot in f.temp ==> f.keyFile != Some(f.temp[t.slot])
  }

  ghost predicate NoneDangles(s: State) {
    forall p <- s.starts :: CreatingOk(s.files, s.starts[p])
  }

  lemma NextKeepsDangling(s: State, e: Step)
    requires Inv(s) && NoneDangles(s) && (e.Read? ==> !e.fails)
    ensures !Overwrites(s, e) && NoneDangles(Next(s, e))
  {}

  lemma {:induction false} TrueReadsNeverOverwrite(s: State, es: seq<Step>)
    requires Inv(s) && SlotsApart(s, es) && NoneDangles(s) && ReadsTrue(es)
    ensures NoOverwrite(s, es)
    decreases |es|
  {
    if es == [] {
    } else {
      NextKeepsDangling(s, es[0]);
      NextKeepsInv(s, es[0]);
      TrueReadsNeverOverwrite(Next(s, es[0]), es[1..]);
    }
  }

  // ---- Main results -----------------------------------------------------------------------

  lemma {:induction false} RunConcat(s: State, es: seq<Step>, fs: seq<Step>)
    ensures Run(s, es + fs) == Run(Run(s, es), fs)
    ensures NoOverwrite(s, es + fs) <==> NoOverwrite(s, es) && NoOverwrite(Run(s, es), fs)
    ensures SlotsApart(s, es + fs) <==> SlotsApart(s, es) && SlotsApart(Run(s, es), fs)
    decreases |es|
  {
    if es == [] {
      assert es + fs == fs;
    } else {
      assert (es + fs)[1..] == es[1..] + fs;
      RunConcat(Next(s, es[0]), es[1..], fs);
    }
  }

  /** Publication converges, for every interleaving of any number of starts, no two of them running
      under one process id, with stops anywhere and failures of any call but the read of an existing
      key file: at most one link is ever made; the
      key file, once there, is whole and never changes again; and every start that returns a key
      returns the one in the file. */
  lemma PublicationConverges(es: seq<Step>, later: seq<Step>)
    requires SlotsApart(INIT, es + later) && ReadsTrue(es + later)
    ensures var s, z := Run(INIT, es), Run(INIT, es + later);
            && |z.links| <= 1
            && (s.files.keyFile.Some? ==> KeyOn(s.files).Some? && KeyOn(s.files).value.Whole? && KeyOn(z.files) == KeyOn(s.files))
            && (forall p <- z.starts :: z.starts[p].phase.Returned? ==> KeyOn(z.files) == Some(Whole(z.starts[p].phase.key)))
  {
    TrueReadsNeverOverwrite(INIT, es + later);
    RunConcat(INIT, es, later);
    RunKeepsInv(INIT, es);
    var s := Run(INIT, es);
    RunKeepsInv(s, later);
    var z := Run(s, later);
    forall p | p in z.starts && z.starts[p].phase.Returned? ensures KeyOn(z.files) == Some(Whole(z.starts[p].phase.key)) {
      assert StartOk(z.files, z.starts[p]);
    }
  }

  // ---- Without the hypotheses -------------------------------------------------------------

  /** The key file is whole and every start that published or returned a key has the one in it. */
  ghost predicate Promise(s: State) {
    KeyIntact(s.files) && forall p <- s.starts :: KeyAgrees(s.files, s.starts[p])
  }

  predicate KeyAgrees(f: Files, t: Start) {
    match t.phase
    case Unlinking(true) => KeyOn(f) == Some(Whole(t.key))
    case Returned(k) => KeyOn(f) == Some(Whole(k))
    case _ => true
  }

  /** The promise holds in every state of a run, and a key file once there never changes. */
  ghost predicate AlwaysKept(s: State, es: seq<Step>)
    decreases |es|
  {
    Promise(s) && (es == [] || (KeyStays(s, es[0]) && AlwaysKept(Next(s, es[0]), es[1..])))
  }

  predicate KeyStays(s: State, e: Step) {
    s.files.keyFile.Some? ==> KeyOn(Next(s, e).files) == KeyOn(s.files)
  }

  /** The harmful steps: a start opens the key file's own inode, writes another key to it, or links
      an inode that does not hold its key. */
  predicate Harms(s: State, e: Step) {
    var f := s.files;
    Enabled(s, e) && match e
      case Create(_, _, false) => Overwrites(s, e)
      case Write(p, false) => f.keyFile == Some(s.starts[p].phase.ino) && KeyOn(f) != Some(Whole(s.starts[p].key))
      case Link(p, false) =>
        var t := s.starts[p];
        f.keyFile.None? && t.slot in f.temp && KeyOn(f.(keyFile := Some(f.temp[t.slot]))) != Some(Whole(t.key))
      case _ => false
  }

  predicate NoHarm(s: State, es: seq<Step>)
    decreases |es|
  {
    es == [] || (!Harms(s, es[0]) && NoHarm(Next(s, es[0]), es[1..]))
  }

  lemma HarmShows(s: State, e: Step)
    requires Promise(s) && Harms(s, e)
    ensures !(KeyStays(s, e) && Promise(Next(s, e)))
  {
    var s' := Next(s, e);
    if e.Link? { assert !KeyAgrees(s'.files, s'.starts[e.p]); }
  }

  lemma HarmlessKeeps(s: State, e: Step)
    requires Promise(s) && !Harms(s, e)
    ensures KeyStays(s, e) && Promise(Next(s, e))
  {}

  /** Whatever names the starts share and whichever reads fail: the promise of publication is kept
      throughout exactly in the runs without a harmful step. */
  lemma {:induction false} KeptIffNoHarm(s: State, es: seq<Step>)
    requires Promise(s)
    ensures AlwaysKept(s, es) <==> NoHarm(s, es)
    decreases |es|
  {
    if es == [] {
    } else if Harms(s, es[0]) {
      HarmShows(s, es[0]);
    } else {
      HarmlessKeeps(s, es[0]);
      KeptIffNoHarm(Next(s, es[0]), es[1..]);
    }
  }

  lemma HarmIsOverwrite(s: State, e: Step)
    requires Inv(s)
    ensures Harms(s, e) <==> Overwrites(s, e)
  {}

  /** While no two running starts share a name, opening a leftover second name is the only harm:
      with reads that may fail too, exactly the runs with such an open break the promise. */
  lemma {:induction false} KeptIffNoOverwrite(s: State, es: seq<Step>)
    requires Inv(s) && SlotsApart(s, es)
    ensures AlwaysKept(s, es) <==> NoOverwrite(s, es)
    decreases |es|
  {
    HarmIsOverwriteThroughout(s, es);
    assert forall p <- s.starts :: StartOk(s.files, s.starts[p]) ==> KeyAgrees(s.files, s.starts[p]);
    KeptIffNoHarm(s, es);
  }

  /** The key file is intact in every state of a run. */
  predicate AlwaysIntact(s: State, es: seq<Step>)
    decreases |es|
  {
    KeyIntact(s.files) && (es == [] || AlwaysIntact(Next(s, es[0]), es[1..]))
  }

  /** And exactly those runs lose the key file itself. */
  lemma {:induction false} IntactIffNoOverwrite(s: State, es: seq<Step>)
    requires Inv(s) && SlotsApart(s, es)
    ensures AlwaysIntact(s, es) <==> NoOverwrite(s, es)
    decreases |es|
  {
    if es == [] {
    } else if Overwrites(s, es[0]) {
      assert !KeyIntact(Next(s, es[0]).files);
    } else {
      NextKeepsInv(s, es[0]);
      IntactIffNoOverwrite(Next(s, es[0]), es[1..]);
    }
  }

  lemma {:induction false} HarmIsOverwriteThroughout(s: State, es: seq<Step>)
    requires Inv(s) && SlotsApart(s, es)
    ensures NoHarm(s, es) <==> NoOverwrite(s, es)
    decreases |es|
  {
    if es == [] {
    } else {
      HarmIsOverwrite(s, es[0]);
      if !Overwrites(s, es[0]) {
        NextKeepsInv(s, es[0]);
        HarmIsOverwriteThroughout(Next(s, es[0]), es[1..]);
      }
    }
  }

  /** In every run whatever, the key file is linked at most once. */
  lemma {:induction false} LinkedAtMostOnce(s: State, es: seq<Step>)
    requires |s.links| == if s.files.keyFile.None? then 0 else 1
    ensures |Run(s, es).links| == if Run(s, es).files.keyFile.None? then 0 else 1
    decreases |es|
  {
    if es == [] {
    } else {
      LinkedAtMostOnce(Next(s, es[0]), es[1..]);
    }
  }

  lemma RunCons(s: State, e: Step, es: seq<Step>)
    ensures Run(s, [e] + es) == Run(Next(s, e), es)
  {}

  /** Such a run: a start links its key and stops before it removes the temporary name; a later start
      with the same process id fails to read the key file and opens that name. */
  lemma FailedReadCanTruncateTheKey(slot: Slot, k1: Secret, k2: Secret) returns (es: seq<Step>)
    ensures var z := Run(INIT, es); z.links == [k1] && KeyOn(z.files) == Some(Partial)
  {
    var begin2 := [Begin(2, slot, k2, true), Read(2, true), Create(2, 1, false)];
    es := [Begin(1, slot, k1, true), Read(1, false), Create(1, 0, false), Write(1, false), Link(1, false), Stop(1)] + begin2;
    var s1 := PublishedAndStopped(slot, k1, begin2);
    var s2 := Next(s1, Begin(2, slot, k2, true));
    RunCons(s1, Begin(2, slot, k2, true), [Read(2, true), Create(2, 1, false)]);
    RunCons(s2, Read(2, true), [Create(2, 1, false)]);
    var s3 := Next(s2, Read(2, true));
    RunCons(s3, Create(2, 1, false), []);
    assert begin2 == [Begin(2, slot, k2, true)] + [Read(2, true), Create(2, 1, false)];
    assert [Read(2, true)] + [Create(2, 1, false)] == [Read(2, true), Create(2, 1, false)];
    assert [Create(2, 1, false)] + [] == [Create(2, 1, false)];
    assert s3.starts[2].phase == Creating && s3.files == s1.files;
  }

  function SharedRun(slot: Slot, k1: Secret, k2: Secret): seq<Step> {
    [Begin(1, slot, k1, true), Read(1, false), Create(1, 0, false), Write(1, false),
     Begin(2, slot, k2, true), Read(2, false), Create(2, 1, false), Link(1, false)]
  }

  /** Two running starts with one name break it without any failure: the second truncates what the
      first has written, and the first links that. */
  lemma SharedNameBreaksTheKey(slot: Slot, k1: Secret, k2: Secret)
    ensures ReadsTrue(SharedRun(slot, k1, k2))
    ensures var z := Run(INIT, SharedRun(slot, k1, k2)); z.links == [k1] && KeyOn(z.files) == Some(Partial)
  {
    var d := Written(slot, k1);
    var z := SecondTruncates(d, slot, k1, k2);
    RunEight(INIT, SharedRun(slot, k1, k2));
  }

  lemma SecondTruncates(d: State, slot: Slot, k1: Secret, k2: Secret) returns (z: State)
    requires d == State(Files(map[0 := Whole(k1)], map[slot := 0], None), map[1 := Start(slot, k1, true, Linking(0))], [])
    ensures z == Next(Next(Next(Next(d, Begin(2, slot, k2, true)), Read(2, false)), Create(2, 1, false)), Link(1, false))
    ensures z.links == [k1] && KeyOn(z.files) == Some(Partial)
  {
    var b := Next(Next(d, Begin(2, slot, k2, true)), Read(2, false));
    assert b.starts[2] == Start(slot, k2, true, Creating) && b.files == d.files && b.starts[1] == d.starts[1] && b.links == [];
    var c := Next(b, Create(2, 1, false));
    assert c.files == Files(map[0 := Partial], map[slot := 0], None) && c.starts[1] == d.starts[1];
    z := Next(c, Link(1, false));
  }

  lemma RunEight(s: State, es: seq<Step>)
    requires |es| == 8
    ensures Run(s, es) == Next(Next(Next(Next(Next(Next(Next(Next(s, es[0]), es[1]), es[2]), es[3]), es[4]), es[5]), es[6]), es[7])
  {
    assert es == es[..6] + ([es[6]] + ([es[7]] + []));
    RunSix(s, es[..6], [es[6]] + ([es[7]] + []));
    var t := Next(Next(Next(Next(Next(Next(s, es[0]), es[1]), es[2]), es[3]), es[4]), es[5]);
    RunCons(t, es[6], [es[7]] + []);
    RunCons(Next(t, es[6]), es[7], []);
  }

  lemma Written(slot: Slot, k: Secret) returns (d: State)
    ensures d == Next(Next(Next(Next(INIT, Begin(1, slot, k, true)), Read(1, false)), Create(1, 0, false)), Write(1, false))
    ensures d == State(Files(map[0 := Whole(k)], map[slot := 0], None), map[1 := Start(slot, k, true, Linking(0))], [])
  {
    var a := Next(INIT, Begin(1, slot, k, true));
    assert a == State(Files(map[], map[], None), map[1 := Start(slot, k, true, Reading)], []);
    var b := Next(a, Read(1, false));
    assert b == State(Files(map[], map[], None), map[1 := Start(slot, k, true, Creating)], []);
    var c := Next(b, Create(1, 0, false));
    assert c == State(Files(map[0 := Partial], map[slot := 0], None), map[1 := Start(slot, k, true, Writing(0))], []);
    d := Next(c, Write(1, false));
  }

  lemma PublishedAndStopped(slot: Slot, k: Secret, rest: seq<Step>) returns (s: State)
    ensures s == State(Files(map[0 := Whole(k)], map[slot := 0], Some(0)), map[1 := Start(slot, k, true, Exited)], [k])
    ensures Run(INIT, [Begin(1, slot, k, true), Read(1, false), Create(1, 0, false), Write(1, false), Link(1, false), Stop(1)] + rest)
         == Run(s, rest)
  {
    var d := Written(slot, k);
    var f := Next(d, Link(1, false));
    assert f == State(Files(map[0 := Whole(k)], map[slot := 0], Some(0)), map[1 := Start(slot, k, true, Unlinking(true))], [k]);
    s := Next(f, Stop(1));
    RunSix(INIT, [Begin(1, slot, k, true), Read(1, false), Create(1, 0, false), Write(1, false), Link(1, false), Stop(1)], rest);
  }

  lemma RunSix(s: State, es: seq<Step>, rest: seq<Step>)
    requires |es| == 6
    ensures Run(s, es + rest) == Run(Next(Next(Next(Next(Next(Next(s, es[0]), es[1]), es[2]), es[3]), es[4]), es[5]), rest)
  {
    assert es + rest == [es[0]] + ([es[1]] + ([es[2]] + ([es[3]] + ([es[4]] + ([es[5]] + rest)))));
    var a := Next(s, es[0]);
    var b := Next(a, es[1]);
    var c := Next(b, es[2]);
    var d := Next(c, es[3]);
    var f := Next(d, es[4]);
    RunCons(s, es[0], [es[1]] + ([es[2]] + ([es[3]] + ([es[4]] + ([es[5]] + rest)))));
    RunCons(a, es[1], [es[2]] + ([es[3]] + ([es[4]] + ([es[5]] + rest))));
    RunCons(b, es[2], [es[3]] + ([es[4]] + ([es[5]] + rest)));
    RunCons(c, es[3], [es[4]] + ([es[5]] + rest));
    RunCons(d, es[4], [es[5]] + rest);
    RunCons(f, es[5], rest);
  }

  // ---- Starts that get a key --------------------------------------------------------------

  lemma RunThree(s: State, es: seq<Step>)
    requires |es| == 3
    ensures Run(s, es) == Next(Next(Next(s, es[0]), es[1]), es[2])
  {
    assert es == [es[0]] + ([es[1]] + ([es[2]] + []));
    RunCons(s, es[0], [es[1]] + ([es[2]] + []));
    RunCons(Next(s, es[0]), es[1], [es[2]] + []);
    RunCons(Next(Next(s, es[0]), es[1]), es[2], []);
  }

  /** A start that begins and reads returns the key on file; with none there it stops, or goes on to make one
      exactly if it was asked to; a malformed one ends it. Nothing on disk changes. */
  lemma StartReads(s: State, p: StartId, slot: Slot, key: Secret, mayGenerate: bool)
    requires p !in s.starts
    ensures var z := Next(Next(s, Begin(p, slot, key, mayGenerate)), Read(p, false));
            && z.files == s.files && z.links == s.links && p in z.starts
            && z.starts[p].phase == match KeyOn(s.files)
                                    case Some(Whole(k)) => Returned(k)
                                    case Some(Partial) => Exited
                                    case None => if mayGenerate then Creating else Exited
  {}

  /** From any state without a key file, and whatever the start's temporary name was left as: a start that may
      make a key, and is not interrupted, links its key and returns it. */
  lemma LoneStartPublishes(s: State, p: StartId, slot: Slot, key: Secret, ino: nat)
    requires s.files.keyFile.None? && p in s.starts && s.starts[p].phase == Creating && ino !in s.files.inodes
    requires s.starts[p].slot == slot && s.starts[p].key == key
    ensures var z := Run(s, [Create(p, ino, false), Write(p, false), Link(p, false)]);
            && z.links == s.links + [key] && KeyOn(z.files) == Some(Whole(key))
            && p in z.starts && z.starts[p].phase == Unlinking(true)
    ensures var z := Next(Run(s, [Create(p, ino, false), Write(p, false), Link(p, false)]), Unlink(p, false));
            && KeyOn(z.files) == Some(Whole(key)) && slot !in z.files.temp
            && p in z.starts && z.starts[p].phase == Returned(key)
  {
    RunThree(s, [Create(p, ino, false), Write(p, false), Link(p, false)]);
    var a := Next(s, Create(p, ino, false));
    var i := a.files.temp[slot];
    assert a.starts[p] == s.starts[p].(phase := Writing(i)) && a.files.keyFile.None?;
    var b := Next(a, Write(p, false));
    assert b.starts[p] == s.starts[p].(phase := Linking(i)) && b.files.temp[slot] == i && b.files.inodes[i] == Whole(key);
  }

  /** A start whose link comes too late, because another's key is there by then, removes its temporary name
      and returns the other's key. */
  lemma LateStartReturnsTheOthersKey(s: State, p: StartId, ino: nat, k: Secret)
    requires KeyOn(s.files) == Some(Whole(k)) && p in s.starts && s.starts[p].phase == Linking(ino)
    ensures var z := Run(s, [Link(p, false), Unlink(p, false), Read(p, false)]);
            && p in z.starts && z.starts[p].phase == Returned(k) && KeyOn(z.files) == KeyOn(s.files) && z.links == s.links
            && s.starts[p].slot !in z.files.temp
  {
    RunThree(s, [Link(p, false), Unlink(p, false), Read(p, false)]);
    var a := Next(s, Link(p, false));
    assert a.files == s.files && a.starts[p] == s.starts[p].(phase := Unlinking(false)) && a.links == s.links;
    var b := Next(a, Unlink(p, false));
    assert b.starts[p] == s.starts[p].(phase := Rereading) && KeyOn(b.files) == Some(Whole(k));
  }

  /** A start that fails to write, or to link, and finds no key afterwards, exits. */
  lemma FailedStartExits(s: State, p: StartId)
    requires s.files.keyFile.None? && p in s.starts && s.starts[p].phase == Unlinking(false)
    ensures var z := Next(Next(s, Unlink(p, false)), Read(p, false));
            z.starts[p].phase == Exited && KeyOn(z.files) == None && s.starts[p].slot !in z.files.temp
  {
    var a := Next(s, Unlink(p, false));
    assert a.starts[p] == s.starts[p].(phase := Rereading);
  }

  // ---- One start, uninterrupted -----------------------------------------------------------

  const MAX_REGENERATIONS: nat := 300

  predicate UsablePublicKey(pk: string) {
    '/' !in pk && ':' !in pk
  }

  /** Key pairs are generated until the public key has neither a slash nor a colon; the pair after
      the last try is taken as it comes. */
  method PickKeyPair(generated: seq<(string, Secret)>) returns (pair: (string, Secret))
    requires |generated| == MAX_REGENERATIONS + 1
    ensures exists i :: 0 <= i <= MAX_REGENERATIONS && pair == generated[i]
                        && (forall j :: 0 <= j < i ==> !UsablePublicKey(generated[j].0))
                        && (UsablePublicKey(pair.0) || i == MAX_REGENERATIONS)
  {
    pair := generated[0];
    for i := 0 to MAX_REGENERATIONS
      invariant pair == generated[i]
      invariant forall j :: 0 <= j < i ==> !UsablePublicKey(generated[j].0)
    {
      if UsablePublicKey(pair.0) { return; }
      pair := generated[i + 1];
    }
  }

  class KeyDirectory {
    var files: Files

    constructor ()
      ensures files == INIT.files
    {
      files := Files(map[], map[], None);
    }

    method ReadSk(fails: bool) returns (content: Option<Content>)
      ensures content == if fails then None else KeyOn(files)
    {
      if fails || files.keyFile.None? || files.keyFile.value !in files.inodes { return None; }
      content := Some(files.inodes[files.keyFile.value]);
    }

    /** Writes the key under its temporary name, links it into place and removes that name. It is
        published exactly if every call works and no key file is there; else the key file is as before. */
    method GenerateAndPublish(slot: Slot, key: Secret, ino: nat, createFails: bool, writeFails: bool, linkFails: bool, unlinkFails: bool)
        returns (published: bool)
      requires NamesOk(files) && ino !in files.inodes
      requires slot in files.temp ==> files.keyFile != Some(files.temp[slot])
      modifies this
      ensures NamesOk(files)
      ensures published <==> !createFails && !writeFails && !linkFails && old(files).keyFile.None?
      ensures published ==> KeyOn(files) == Some(Whole(key))
      ensures !published ==> files.keyFile == old(files).keyFile && KeyOn(files) == KeyOn(old(files))
      ensures !unlinkFails ==> slot !in files.temp
    {
      published := false;
      if !createFails {
        files := Opened(files, slot, ino);
        var i := files.temp[slot];
        if !writeFails {
          files := files.(inodes := files.inodes[i := Whole(key)]);
          if !linkFails && files.keyFile.None? {
            files := files.(keyFile := Some(i));
            published := true;
          }
        }
      }
      if !unlinkFails { files := files.(temp := files.temp - {slot}); }
    }

    /** A whole start: a key on file is loaded and left alone; a missing one is made only when asked
        for; a malformed one ends the start and is left alone too. */
    method GenSk(slot: Slot, key: Secret, mayGenerate: bool, ino: nat, createFails: bool, writeFails: bool, linkFails: bool, unlinkFails: bool)
        returns (sk: Option<Secret>)
      requires NamesOk(files) && ino !in files.inodes
      modifies this
      ensures NamesOk(files)
      ensures KeyOn(old(files)) == Some(Partial) ==> sk.None? && files == old(files)
      ensures forall k :: KeyOn(old(files)) == Some(Whole(k)) ==> sk == Some(k) && files == old(files)
      ensures KeyOn(old(files)).None? && !mayGenerate ==> sk.None? && files == old(files)
      ensures KeyOn(old(files)).None? && mayGenerate ==> sk == if createFails || writeFails || linkFails then None else Some(key)
      ensures sk.Some? ==> KeyOn(files) == Some(Whole(sk.value))
      ensures sk.None? ==> KeyOn(files) == KeyOn(old(files))
    {
      var content := ReadSk(false);
      match content
      case Some(Whole(k)) => return Some(k);
      case Some(Partial) => return None;
      case None =>
        if !mayGenerate { return None; }
        var published := GenerateAndPublish(slot, key, ino, createFails, writeFails, linkFails, unlinkFails);
        if published { return Some(key); }
        var again := ReadSk(false);
        match again
        case Some(Whole(k)) => return Some(k);
        case _ => return None;
    }
  }
}
