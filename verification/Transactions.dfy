/** Output transactions: moving outputs aside before a build, and back or away after it.

    Every rename and removal is one or two visible states of the file system, and the machine may
    stop after any of them. */
module Transactions {
  import opened OutputIndex
  import opened Sequences

  /** An output, or the backup beside it; no output bears the name of a backup, or lies inside
      another output. */
  datatype Path = Live(output: Output) | Backup(output: Output)

  /** What a path holds; a directory with nothing in it is Folder([]), and Partial is one of which the
      removal has begun. */
  datatype Content = File(bytes: seq<int>, mtime: int) | Folder(bytes: seq<int>) | Partial

  type Files = map<Path, Content>

  // ---- The two primitive steps, and the states they pass through ----

  function Without(fs: Files, p: Path): Files {
    map q | q in fs && q != p :: fs[q]
  }

  function Moved(fs: Files, p: Path, q: Path): Files
    requires p in fs
  {
    Without(fs, p)[q := fs[p]]
  }

  /** A file, or an empty directory, is removed by one call of the system. */
  predicate AtOnce(c: Content) {
    c.File? || c == Folder([])
  }

  /** Any other directory goes bit by bit. */
  function Removal(fs: Files, p: Path): seq<Files>
    requires p in fs
  {
    (if AtOnce(fs[p]) then [] else [fs[p := Partial]]) + [Without(fs, p)]
  }

  // ---- begin_output_transaction and finish_output_transaction, state by state ----

  /** The states that preparing one output passes through. */
  function BeginOne(fs: Files, o: Output): (t: seq<Files>) {
    var a := if Backup(o) in fs then
               (if Live(o) in fs then Removal(fs, Live(o)) else [])
               + [Moved(Without(fs, Live(o)), Backup(o), Live(o))]
             else [];
    var fs1 := Last(fs, a);
    a + if Live(o) in fs1 then [Moved(fs1, Live(o), Backup(o))] else []
  }

  function FinishOne(fs: Files, o: Output, saved: bool, success: bool): (t: seq<Files>) {
    if success then
      if saved && Backup(o) in fs then Removal(fs, Backup(o)) else []
    else
      var a := if Live(o) in fs then Removal(fs, Live(o)) else [];
      var fs1 := Last(fs, a);
      a + if saved && Backup(o) in fs1 then [Moved(fs1, Backup(o), Live(o))] else []
  }

  function Last(fs: Files, t: seq<Files>): Files {
    if t == [] then fs else t[|t| - 1]
  }

  function BeginAll(fs: Files, outputs: seq<Output>): seq<Files> {
    if outputs == [] then [] else
      var n := |outputs| - 1;
      var t := BeginAll(fs, outputs[..n]);
      t + BeginOne(Last(fs, t), outputs[n])
  }

  function FinishAll(fs: Files, outputs: seq<Output>, saved: set<Output>, success: bool): seq<Files> {
    if outputs == [] then [] else
      var n := |outputs| - 1;
      var t := FinishAll(fs, outputs[..n], saved, success);
      t + FinishOne(Last(fs, t), outputs[n], outputs[n] in saved, success)
  }

  /** The outputs that begin sets aside: those with something at their path or backup. */
  function Saved(fs: Files, outputs: seq<Output>): set<Output> {
    set o | o in outputs && (Live(o) in fs || Backup(o) in fs)
  }

  // ---- The code ----

  class FileSystem {
    var files: Files
    /** Every state the disk has been in since the log was started. */
    ghost var log: seq<Files>

    method Remove(p: Path)
      requires p in files
      modifies this
      ensures files == Without(old(files), p)
      ensures log == old(log) + Removal(old(files), p)
    {
      if !AtOnce(files[p]) {
        files := files[p := Partial];
        log := log + [files];
      }
      files := map q | q in files && q != p :: files[q];
      log := log + [files];
      assert files == Without(old(files), p);
    }

    method Rename(p: Path, q: Path)
      requires p in files && q !in files
      modifies this
      ensures files == Moved(old(files), p, q) && log == old(log) + [files]
    {
      files := Without(files, p)[q := files[p]];
      log := log + [files];
    }

    /** Restore an output left aside by an interrupted attempt, then move it aside. */
    method BeginOutput(o: Output) returns (aside: bool)
      modifies this
      ensures log == old(log) + BeginOne(old(files), o)
      ensures files == Last(old(files), BeginOne(old(files), o))
      ensures aside <==> Live(o) in old(files) || Backup(o) in old(files)
      ensures forall p: Path :: p.output != o ==> SameAt(old(files), files, p)
    {
      if Backup(o) in files {
        if Live(o) in files {
          Remove(Live(o));
        } else {
          assert Without(files, Live(o)) == files;
        }
        Rename(Backup(o), Live(o));
      }
      aside := Live(o) in files;
      if aside {
        Rename(Live(o), Backup(o));
      }
    }

    method Begin(outputs: seq<Output>) returns (saved: set<Output>)
      requires forall i, j :: 0 <= i < j < |outputs| ==> outputs[i] != outputs[j]
      modifies this
      ensures log == old(log) + BeginAll(old(files), outputs)
      ensures files == Last(old(files), BeginAll(old(files), outputs))
      ensures saved == Saved(old(files), outputs)
    {
      hide BeginOne, Saved, SameAt;
      saved := {};
      SameAtSelf(files);
      NothingSaved(files);
      for i := 0 to |outputs|
        invariant log == old(log) + BeginAll(old(files), outputs[..i])
        invariant files == Last(old(files), BeginAll(old(files), outputs[..i]))
        invariant saved == Saved(old(files), outputs[..i])
        invariant forall k, p: Path :: i <= k < |outputs| && p.output == outputs[k] ==> SameAt(old(files), files, p)
      {
        assert outputs[..i + 1][..i] == outputs[..i];
        assert outputs[..i + 1] == outputs[..i] + [outputs[i]];
        SavedNext(old(files), files, outputs[..i], outputs[i]);
        SameAtThrough(old(files), files);
        var aside := BeginOutput(outputs[i]);
        if aside {
          saved := saved + {outputs[i]};
        }
      }
      assert outputs[..|outputs|] == outputs;
    }

    method FinishOutput(o: Output, saved: bool, success: bool)
      modifies this
      ensures log == old(log) + FinishOne(old(files), o, saved, success)
      ensures files == Last(old(files), FinishOne(old(files), o, saved, success))
    {
      if success {
        if saved && Backup(o) in files {
          Remove(Backup(o));
        }
      } else {
        if Live(o) in files {
          Remove(Live(o));
        }
        if saved && Backup(o) in files {
          Rename(Backup(o), Live(o));
        }
      }
    }

    method Finish(outputs: seq<Output>, saved: set<Output>, success: bool)
      modifies this
      ensures log == old(log) + FinishAll(old(files), outputs, saved, success)
      ensures files == Last(old(files), FinishAll(old(files), outputs, saved, success))
    {
      hide FinishOne;
      for i := 0 to |outputs|
        invariant log == old(log) + FinishAll(old(files), outputs[..i], saved, success)
        invariant files == Last(old(files), FinishAll(old(files), outputs[..i], saved, success))
      {
        assert outputs[..i + 1][..i] == outputs[..i];
        FinishOutput(outputs[i], outputs[i] in saved, success);
      }
      assert outputs[..|outputs|] == outputs;
    }
  }

  ghost predicate SameAt(fs: Files, fs': Files, p: Path) {
    (p in fs <==> p in fs') && (p in fs ==> fs[p] == fs'[p])
  }

  lemma SameAtSelf(fs: Files)
    ensures forall p :: SameAt(fs, fs, p)
  {
  }

  lemma SameAtThrough(fs: Files, fs': Files)
    ensures forall p, fs'': Files :: SameAt(fs, fs', p) && SameAt(fs', fs'', p) ==> SameAt(fs, fs'', p)
  {
  }

  lemma NothingSaved(fs: Files)
    ensures Saved(fs, []) == {}
  {
  }

  lemma SavedNext(fs: Files, fs': Files, outputs: seq<Output>, o: Output)
    requires SameAt(fs, fs', Live(o)) && SameAt(fs, fs', Backup(o))
    ensures Saved(fs, outputs + [o]) == Saved(fs, outputs) + (if Live(o) in fs' || Backup(o) in fs' then {o} else {})
  {
  }

  lemma SameEverywhere(fs: Files, fs': Files)
    requires forall p: Path :: SameAt(fs, fs', p)
    ensures fs == fs'
  {
    assert forall p :: p in fs ==> SameAt(fs, fs', p);
    assert forall p :: p in fs' ==> SameAt(fs, fs', p);
    assert fs.Keys == fs'.Keys;
  }

  // ---- Attempts, interrupted or not ----

  /** One attempt at building some outputs, and how far it got: `writes` is what the build left at
      the live paths, k the number of states passed before the machine stopped. */
  datatype Attempt =
    | StoppedInBegin(outputs: seq<Output>, k: nat)
    | StoppedInBuild(outputs: seq<Output>, writes: Files)
    | StoppedInRestore(outputs: seq<Output>, writes: Files, k: nat)
    | Failed(outputs: seq<Output>, writes: Files)
    | StoppedInCommit(outputs: seq<Output>, writes: Files, k: nat)
    | Succeeded(outputs: seq<Output>, writes: Files)

  function Begun(fs: Files, outputs: seq<Output>): Files {
    Last(fs, BeginAll(fs, outputs))
  }

  /** The build changes nothing but the live paths of its outputs. */
  function Built(fs: Files, outputs: seq<Output>, writes: Files): Files {
    (map p | p in fs && !(p.Live? && p.output in outputs) :: fs[p])
    + (map p | p in writes && p.Live? && p.output in outputs :: writes[p])
  }

  function UpTo(fs: Files, t: seq<Files>, k: nat): Files {
    if k == 0 || t == [] then fs else if k <= |t| then t[k - 1] else t[|t| - 1]
  }

  function After(fs: Files, a: Attempt): Files {
    var begun := Begun(fs, a.outputs);
    match a
    case StoppedInBegin(outputs, k) => UpTo(fs, BeginAll(fs, outputs), k)
    case StoppedInBuild(outputs, writes) => Built(begun, outputs, writes)
    case StoppedInRestore(outputs, writes, k) =>
      var built := Built(begun, outputs, writes);
      UpTo(built, FinishAll(built, outputs, Saved(fs, outputs), false), k)
    case Failed(outputs, writes) =>
      var built := Built(begun, outputs, writes);
      Last(built, FinishAll(built, outputs, Saved(fs, outputs), false))
    case StoppedInCommit(outputs, writes, k) =>
      var built := Built(begun, outputs, writes);
      UpTo(built, FinishAll(built, outputs, Saved(fs, outputs), true), k)
    case Succeeded(outputs, writes) =>
      var built := Built(begun, outputs, writes);
      Last(built, FinishAll(built, outputs, Saved(fs, outputs), true))
  }

  function AfterAll(fs: Files, run: seq<Attempt>): Files {
    if run == [] then fs else After(AfterAll(fs, run[..|run| - 1]), run[|run| - 1])
  }

  // ---- Safety: what an output held is never lost ----

  ghost predicate Aside(fs: Files, o: Output, c: Content) {
    Backup(o) in fs && fs[Backup(o)] == c
  }

  /** The content c of output o is at its backup or, there being none, at its path. */
  ghost predicate Held(fs: Files, o: Output, c: Content) {
    Aside(fs, o, c) || (Backup(o) !in fs && Live(o) in fs && fs[Live(o)] == c)
  }

  ghost predicate AllHeld(t: seq<Files>, o: Output, c: Content) {
    forall k :: 0 <= k < |t| ==> Held(t[k], o, c)
  }

  lemma BeginOneHolds(fs: Files, o': Output, o: Output, c: Content)
    requires Held(fs, o, c)
    ensures AllHeld(BeginOne(fs, o'), o, c) && Held(Last(fs, BeginOne(fs, o')), o, c)
    ensures o' == o ==> Aside(Last(fs, BeginOne(fs, o')), o, c)
    ensures o' != o ==> forall p: Path :: p.output == o ==> SameAt(fs, Last(fs, BeginOne(fs, o')), p)
  {
  }

  lemma {:induction false} BeginAllHolds(fs: Files, outputs: seq<Output>, o: Output, c: Content)
    requires Held(fs, o, c)
    ensures AllHeld(BeginAll(fs, outputs), o, c) && Held(Begun(fs, outputs), o, c)
    ensures o in outputs ==> Aside(Begun(fs, outputs), o, c)
  {
    hide Held, AllHeld, BeginOne, Aside;
    if outputs != [] {
      var n := |outputs| - 1;
      BeginAllHolds(fs, outputs[..n], o, c);
      var t, u := BeginAll(fs, outputs[..n]), BeginOne(Begun(fs, outputs[..n]), outputs[n]);
      BeginOneHolds(Begun(fs, outputs[..n]), outputs[n], o, c);
      HeldJoin(fs, t, u, o, c);
      if o != outputs[n] && o in outputs {
        assert o in outputs[..n];
        SameAside(Begun(fs, outputs[..n]), Begun(fs, outputs), o, c);
      }
    } else {
      NothingHeld(o, c);
    }
  }

  lemma NothingHeld(o: Output, c: Content)
    ensures AllHeld([], o, c)
  {
  }

  lemma HeldJoin(fs: Files, t: seq<Files>, u: seq<Files>, o: Output, c: Content)
    requires AllHeld(t, o, c) && AllHeld(u, o, c)
    ensures AllHeld(t + u, o, c) && Last(fs, t + u) == Last(Last(fs, t), u)
  {
    hide Held;
  }

  lemma SameAside(fs: Files, fs': Files, o: Output, c: Content)
    requires Aside(fs, o, c) && SameAt(fs, fs', Backup(o))
    ensures Aside(fs', o, c)
  {
  }

  lemma FinishOneHolds(fs: Files, o': Output, saved: bool, success: bool, o: Output, c: Content)
    requires Held(fs, o, c) && (o' == o ==> Aside(fs, o, c) && !success)
    ensures AllHeld(FinishOne(fs, o', saved, success), o, c) && Held(Last(fs, FinishOne(fs, o', saved, success)), o, c)
    ensures o' != o && Aside(fs, o, c) ==> Aside(Last(fs, FinishOne(fs, o', saved, success)), o, c)
  {
  }

  lemma {:induction false} FinishAllHolds(fs: Files, outputs: seq<Output>, saved: set<Output>, success: bool, o: Output, c: Content)
    requires Distinct(outputs) && Held(fs, o, c) && (o in outputs ==> Aside(fs, o, c) && !success)
    ensures AllHeld(FinishAll(fs, outputs, saved, success), o, c)
    ensures Held(Last(fs, FinishAll(fs, outputs, saved, success)), o, c)
    ensures o !in outputs && Aside(fs, o, c) ==> Aside(Last(fs, FinishAll(fs, outputs, saved, success)), o, c)
  {
    if outputs != [] {
      var n := |outputs| - 1;
      FinishAllHolds(fs, outputs[..n], saved, success, o, c);
      var fs' := Last(fs, FinishAll(fs, outputs[..n], saved, success));
      assert outputs[n] !in outputs[..n];
      FinishOneHolds(fs', outputs[n], outputs[n] in saved, success, o, c);
    }
  }

  /** Whether the attempt got as far as giving up the backup of o. */
  predicate Commits(a: Attempt, o: Output) {
    (a.StoppedInCommit? || a.Succeeded?) && o in a.outputs
  }

  lemma AttemptHolds(fs: Files, a: Attempt, o: Output, c: Content)
    requires Distinct(a.outputs) && Held(fs, o, c) && !Commits(a, o)
    ensures Held(After(fs, a), o, c)
  {
    hide Held, BeginOne, FinishOne;
    BeginAllHolds(fs, a.outputs, o, c);
    if !a.StoppedInBegin? {
      var built := Built(Begun(fs, a.outputs), a.outputs, a.writes);
      BuiltHolds(Begun(fs, a.outputs), a.outputs, a.writes, o, c);
      FinishAllHolds(built, a.outputs, Saved(fs, a.outputs), a.StoppedInCommit? || a.Succeeded?, o, c);
    }
  }

  lemma BuiltHolds(fs: Files, outputs: seq<Output>, writes: Files, o: Output, c: Content)
    requires Held(fs, o, c) && (o in outputs ==> Aside(fs, o, c))
    ensures Held(Built(fs, outputs, writes), o, c)
    ensures o in outputs ==> Aside(Built(fs, outputs, writes), o, c)
  {
  }

  /** Over any run of attempts, interrupted anywhere, the content an output had at the start is
      held until an attempt at that output gets to committing. */
  lemma {:induction false} NeverLost(fs: Files, run: seq<Attempt>, o: Output, c: Content)
    requires forall i :: 0 <= i < |run| ==> Distinct(run[i].outputs) && !Commits(run[i], o)
    requires Held(fs, o, c)
    ensures Held(AfterAll(fs, run), o, c)
  {
    if run != [] {
      var n := |run| - 1;
      NeverLost(fs, run[..n], o, c);
      AttemptHolds(AfterAll(fs, run[..n]), run[n], o, c);
    }
  }

  // ---- A failed attempt leaves no trace ----

  /** What begin makes of output o. */
  ghost predicate SetAside(fs: Files, fs': Files, o: Output) {
    && Live(o) !in fs'
    && (if Backup(o) in fs then Aside(fs', o, fs[Backup(o)])
        else if Live(o) in fs then Aside(fs', o, fs[Live(o)])
        else Backup(o) !in fs')
  }

  ghost predicate SameOutput(fs: Files, fs': Files, o: Output) {
    SameAt(fs, fs', Live(o)) && SameAt(fs, fs', Backup(o))
  }

  ghost predicate BegunOn(fs: Files, fs': Files, o: Output, mine: bool) {
    if mine then SetAside(fs, fs', o) else SameOutput(fs, fs', o)
  }

  lemma BeginOneEffect(fs: Files, o': Output, o: Output)
    ensures BegunOn(fs, Last(fs, BeginOne(fs, o')), o, o' == o)
  {
  }

  lemma {:induction false} BeginEffect(fs: Files, outputs: seq<Output>, o: Output)
    requires Distinct(outputs)
    ensures BegunOn(fs, Begun(fs, outputs), o, o in outputs)
  {
    hide BeginOne;
    if outputs != [] {
      var n := |outputs| - 1;
      BeginEffect(fs, outputs[..n], o);
      BeginOneEffect(Begun(fs, outputs[..n]), outputs[n], o);
      assert outputs == outputs[..n] + [outputs[n]];
    }
  }

  /** What finish makes of output o. */
  ghost predicate Finished(fs: Files, fs': Files, o: Output, saved: bool, success: bool) {
    if success then
      SameAt(fs, fs', Live(o)) && (if saved then Backup(o) !in fs' else SameAt(fs, fs', Backup(o)))
    else if saved && Backup(o) in fs then Backup(o) !in fs' && Live(o) in fs' && fs'[Live(o)] == fs[Backup(o)]
    else Live(o) !in fs' && SameAt(fs, fs', Backup(o))
  }

  ghost predicate FinishedOn(fs: Files, fs': Files, o: Output, mine: bool, saved: bool, success: bool) {
    if mine then Finished(fs, fs', o, saved, success) else SameOutput(fs, fs', o)
  }

  lemma FinishOneEffect(fs: Files, o': Output, saved: bool, success: bool, o: Output)
    ensures FinishedOn(fs, Last(fs, FinishOne(fs, o', saved, success)), o, o' == o, saved, success)
  {
  }

  lemma FinishAllNext(fs: Files, outputs: seq<Output>, saved: set<Output>, success: bool)
    ensures outputs == [] ==> Last(fs, FinishAll(fs, outputs, saved, success)) == fs
    ensures outputs != [] ==> var n := |outputs| - 1;
      var fs1 := Last(fs, FinishAll(fs, outputs[..n], saved, success));
      Last(fs, FinishAll(fs, outputs, saved, success)) == Last(fs1, FinishOne(fs1, outputs[n], outputs[n] in saved, success))
  {
    hide FinishOne;
  }

  lemma LastApart(outputs: seq<Output>, o: Output)
    requires outputs != [] && Distinct(outputs)
    ensures var n := |outputs| - 1;
      Distinct(outputs[..n]) && (o in outputs <==> o in outputs[..n] || outputs[n] == o) && !(o in outputs[..n] && outputs[n] == o)
  {
    assert outputs == outputs[..|outputs| - 1] + [outputs[|outputs| - 1]];
  }

  lemma FinishJoin(fs: Files, fs1: Files, fs2: Files, o: Output, before: bool, now: bool, saved: bool, success: bool)
    requires !(before && now) && FinishedOn(fs, fs1, o, before, saved, success) && FinishedOn(fs1, fs2, o, now, saved, success)
    ensures FinishedOn(fs, fs2, o, before || now, saved, success)
  {
  }

  lemma {:induction false} FinishEffect(fs: Files, outputs: seq<Output>, saved: set<Output>, success: bool, o: Output)
    requires Distinct(outputs)
    ensures FinishedOn(fs, Last(fs, FinishAll(fs, outputs, saved, success)), o, o in outputs, o in saved, success)
  {
    hide FinishOne, Finished, FinishAll;
    FinishAllNext(fs, outputs, saved, success);
    if outputs != [] {
      var n := |outputs| - 1;
      var fs1 := Last(fs, FinishAll(fs, outputs[..n], saved, success));
      var fs2 := Last(fs1, FinishOne(fs1, outputs[n], outputs[n] in saved, success));
      FinishEffect(fs, outputs[..n], saved, success, o);
      FinishOneEffect(fs1, outputs[n], outputs[n] in saved, success, o);
      LastApart(outputs, o);
      FinishJoin(fs, fs1, fs2, o, o in outputs[..n], outputs[n] == o, o in saved, success);
    }
  }

  /** The files with every left-over backup of the outputs put back in its place. */
  ghost predicate PutBack(fs: Files, fs': Files, o: Output) {
    Backup(o) !in fs' && if Backup(o) in fs then Live(o) in fs' && fs'[Live(o)] == fs[Backup(o)] else SameAt(fs, fs', Live(o))
  }

  lemma FailedPutsBack(fs: Files, outputs: seq<Output>, writes: Files, o: Output)
    requires Distinct(outputs)
    ensures var fs' := After(fs, Failed(outputs, writes));
      if o in outputs then PutBack(fs, fs', o) else SameOutput(fs, fs', o)
  {
    hide BeginOne, FinishOne;
    BeginEffect(fs, outputs, o);
    FinishEffect(Built(Begun(fs, outputs), outputs, writes), outputs, Saved(fs, outputs), false, o);
  }

  /** Beginning, building anything and failing restores the files exactly, unless an interrupted
      attempt had left a backup behind. */
  lemma FailedRestores(fs: Files, outputs: seq<Output>, writes: Files)
    requires Distinct(outputs) && forall o :: o in outputs ==> Backup(o) !in fs
    ensures After(fs, Failed(outputs, writes)) == fs
  {
    var fs' := After(fs, Failed(outputs, writes));
    forall p: Path ensures SameAt(fs, fs', p) { FailedPutsBack(fs, outputs, writes, p.output); }
    SameEverywhere(fs, fs');
  }

  // ---- Committing ----

  /** A successful attempt leaves the built content and no backup. */
  lemma SucceededCommits(fs: Files, outputs: seq<Output>, writes: Files, o: Output)
    requires Distinct(outputs) && o in outputs && Live(o) in writes
    ensures var fs' := After(fs, Succeeded(outputs, writes));
      Backup(o) !in fs' && Live(o) in fs' && fs'[Live(o)] == writes[Live(o)]
  {
    hide BeginOne, FinishOne;
    BeginEffect(fs, outputs, o);
    FinishEffect(Built(Begun(fs, outputs), outputs, writes), outputs, Saved(fs, outputs), true, o);
  }

  /** The new content is in place; the old one is beside it, damaged only if it was a directory. */
  ghost predicate Committing(fs: Files, o: Output, was: Content, now: Content) {
    && Live(o) in fs && fs[Live(o)] == now
    && (Backup(o) in fs ==> fs[Backup(o)] == was || (!AtOnce(was) && fs[Backup(o)] == Partial))
  }

  ghost predicate AllCommitting(t: seq<Files>, o: Output, was: Content, now: Content) {
    forall k :: 0 <= k < |t| ==> Committing(t[k], o, was, now)
  }

  lemma FinishOneCommits(fs: Files, o': Output, saved: bool, o: Output, was: Content, now: Content)
    requires Committing(fs, o, was, now)
    ensures AllCommitting(FinishOne(fs, o', saved, true), o, was, now)
    ensures Committing(Last(fs, FinishOne(fs, o', saved, true)), o, was, now)
  {
  }

  lemma {:induction false} FinishAllCommits(fs: Files, outputs: seq<Output>, saved: set<Output>, o: Output, was: Content, now: Content)
    requires Committing(fs, o, was, now)
    ensures AllCommitting(FinishAll(fs, outputs, saved, true), o, was, now)
    ensures Committing(Last(fs, FinishAll(fs, outputs, saved, true)), o, was, now)
  {
    if outputs != [] {
      var n := |outputs| - 1;
      FinishAllCommits(fs, outputs[..n], saved, o, was, now);
      FinishOneCommits(Last(fs, FinishAll(fs, outputs[..n], saved, true)), outputs[n], outputs[n] in saved, o, was, now);
    }
  }

  /** Stopping anywhere in a commit leaves the new content in place, beside the old one, a damaged
      old directory, or nothing. */
  lemma StoppedInCommitKeepsNew(fs: Files, outputs: seq<Output>, writes: Files, k: nat, o: Output, was: Content)
    requires o in outputs && Live(o) in writes && Held(fs, o, was)
    ensures Committing(After(fs, StoppedInCommit(outputs, writes, k)), o, was, writes[Live(o)])
  {
    hide BeginOne, FinishOne;
    BeginAllHolds(fs, outputs, o, was);
    var built := Built(Begun(fs, outputs), outputs, writes);
    FinishAllCommits(built, outputs, Saved(fs, outputs), o, was, writes[Live(o)]);
  }

  /** The contents that output o may come to hold: the first one and those of committing attempts. */
  function Contents(run: seq<Attempt>, o: Output, c: Content): (s: set<Content>) {
    if run == [] then {c} else
      var a := run[|run| - 1];
      Contents(run[..|run| - 1], o, c) + if Commits(a, o) && Live(o) in a.writes then {a.writes[Live(o)]} else {}
  }

  /** A committing attempt has made every one of its outputs, as a file where o is concerned. */
  predicate CommitsFile(a: Attempt, o: Output) {
    Commits(a, o) ==> Live(o) in a.writes && a.writes[Live(o)].File?
  }

  /** An output that is a file survives every run of attempts, stopped anywhere and committing or
      not: it always holds its first content or a later one, whole. */
  lemma {:induction false} FileSurvives(fs: Files, run: seq<Attempt>, o: Output, c: Content) returns (now: Content)
    requires forall i :: 0 <= i < |run| ==> Distinct(run[i].outputs) && CommitsFile(run[i], o)
    requires c.File? && Held(fs, o, c)
    ensures now.File? && now in Contents(run, o, c)
    ensures Held(AfterAll(fs, run), o, now)
  {
    now := c;
    if run != [] {
      var n := |run| - 1;
      now := FileSurvives(fs, run[..n], o, c);
      now := AttemptKeepsFile(AfterAll(fs, run[..n]), run[n], o, now);
    }
  }

  lemma AttemptKeepsFile(fs: Files, a: Attempt, o: Output, c: Content) returns (now: Content)
    requires Distinct(a.outputs) && CommitsFile(a, o) && c.File? && Held(fs, o, c)
    ensures now == c || (Commits(a, o) && now == a.writes[Live(o)])
    ensures Held(After(fs, a), o, now)
  {
    hide After;
    now := c;
    if !Commits(a, o) {
      AttemptHolds(fs, a, o, c);
    } else if a.StoppedInCommit? {
      StoppedInCommitKeepsNew(fs, a.outputs, a.writes, a.k, o, c);
      if Backup(o) !in After(fs, a) { now := a.writes[Live(o)]; }
    } else {
      SucceededCommits(fs, a.outputs, a.writes, o);
      now := a.writes[Live(o)];
    }
  }

  /** A stop inside the removal of a backup has left part of it. */
  predicate Torn(fs: Files, o: Output) {
    Backup(o) in fs && fs[Backup(o)] == Partial
  }

  /** Of an attempt that commits, wherever it stops, the old or the new content is held whole if
      and only if the backup is not torn. */
  lemma WholeUnlessTorn(fs: Files, a: Attempt, o: Output, c: Content)
    requires Distinct(a.outputs) && Commits(a, o) && Live(o) in a.writes && Held(fs, o, c)
    requires c != Partial && a.writes[Live(o)] != Partial
    ensures Held(After(fs, a), o, c) || Held(After(fs, a), o, a.writes[Live(o)]) <==> !Torn(After(fs, a), o)
    ensures AtOnce(c) ==> !Torn(After(fs, a), o)
  {
    hide After;
    if a.StoppedInCommit? {
      StoppedInCommitKeepsNew(fs, a.outputs, a.writes, a.k, o, c);
    } else {
      SucceededCommits(fs, a.outputs, a.writes, o);
    }
  }

  /** Wherever o stands among the outputs, the removal of its backup passes a state that tears it. */
  lemma {:induction false} TearingStop(fs: Files, outputs: seq<Output>, saved: set<Output>, o: Output) returns (k: nat)
    requires Distinct(outputs) && o in outputs && o in saved && Backup(o) in fs && !AtOnce(fs[Backup(o)])
    ensures 1 <= k <= |FinishAll(fs, outputs, saved, true)| && Torn(FinishAll(fs, outputs, saved, true)[k - 1], o)
  {
    var n := |outputs| - 1;
    var t := FinishAll(fs, outputs[..n], saved, true);
    if o == outputs[n] {
      assert o !in outputs[..n];
      FinishEffect(fs, outputs[..n], saved, true, o);
      k := |t| + 1;
    } else {
      assert o in outputs[..n];
      k := TearingStop(fs, outputs[..n], saved, o);
      assert FinishAll(fs, outputs, saved, true)[k - 1] == t[k - 1];
    }
  }

  lemma CommitTears(fs: Files, outputs: seq<Output>, writes: Files, o: Output, c: Content) returns (k: nat)
    requires Distinct(outputs) && o in outputs && Held(fs, o, c) && !AtOnce(c)
    ensures Torn(After(fs, StoppedInCommit(outputs, writes, k)), o)
  {
    hide BeginOne, FinishOne, BeginAll, FinishAll;
    BeginAllHolds(fs, outputs, o, c);
    k := TearingStop(Built(Begun(fs, outputs), outputs, writes), outputs, Saved(fs, outputs), o);
  }

  /** Wherever a commit stops, the old or the new content of o is held whole: this is so if and only
      if the old content is a file, or an empty directory. */
  lemma CommitHoldsIff(fs: Files, outputs: seq<Output>, writes: Files, o: Output, c: Content)
    requires Distinct(outputs) && o in outputs && Live(o) in writes && Held(fs, o, c)
    requires c != Partial && writes[Live(o)] != Partial
    ensures (forall k: nat :: Held(After(fs, StoppedInCommit(outputs, writes, k)), o, c)
                              || Held(After(fs, StoppedInCommit(outputs, writes, k)), o, writes[Live(o)])) <==> AtOnce(c)
  {
    hide After, Held;
    if AtOnce(c) {
      forall k: nat ensures Held(After(fs, StoppedInCommit(outputs, writes, k)), o, c)
                            || Held(After(fs, StoppedInCommit(outputs, writes, k)), o, writes[Live(o)]) {
        WholeUnlessTorn(fs, StoppedInCommit(outputs, writes, k), o, c);
      }
    } else {
      var k := CommitTears(fs, outputs, writes, o, c);
      WholeUnlessTorn(fs, StoppedInCommit(outputs, writes, k), o, c);
    }
  }

  /** What o holds, at its backup or, there being none, at its path, is a file or an empty directory. */
  predicate HoldsAtOnce(fs: Files, o: Output) {
    if Backup(o) in fs then AtOnce(fs[Backup(o)]) else Live(o) in fs && AtOnce(fs[Live(o)])
  }

  /** Every committing attempt at o has made o, and a commit is only ever stopped where o holds a
      file, or an empty directory, before the attempt. */
  ghost predicate StopsSafely(fs: Files, run: seq<Attempt>, o: Output) {
    forall i :: 0 <= i < |run| ==> SafeAt(fs, run, o, i)
  }

  ghost predicate SafeAt(fs: Files, run: seq<Attempt>, o: Output, i: nat)
    requires i < |run|
  {
    && Distinct(run[i].outputs)
    && (Commits(run[i], o) ==> Live(o) in run[i].writes && run[i].writes[Live(o)] != Partial)
    && (Commits(run[i], o) && run[i].StoppedInCommit? ==> HoldsAtOnce(AfterAll(fs, run[..i]), o))
  }

  /** Directory or file, an output survives every such run. */
  lemma {:induction false} OutputSurvives(fs: Files, run: seq<Attempt>, o: Output, c: Content) returns (now: Content)
    requires StopsSafely(fs, run, o) && c != Partial && Held(fs, o, c)
    ensures now != Partial && now in Contents(run, o, c) && Held(AfterAll(fs, run), o, now)
  {
    hide After;
    now := c;
    if run != [] {
      var n := |run| - 1;
      assert SafeAt(fs, run, o, n);
      forall i | 0 <= i < n ensures SafeAt(fs, run[..n], o, i) {
        assert SafeAt(fs, run, o, i) && run[..n][..i] == run[..i];
      }
      now := OutputSurvives(fs, run[..n], o, c);
      now := AttemptKeepsOutput(AfterAll(fs, run[..n]), run[n], o, now);
    }
  }

  lemma AttemptKeepsOutput(fs: Files, a: Attempt, o: Output, c: Content) returns (now: Content)
    requires Distinct(a.outputs) && c != Partial && Held(fs, o, c)
    requires Commits(a, o) ==> Live(o) in a.writes && a.writes[Live(o)] != Partial && (a.StoppedInCommit? ==> HoldsAtOnce(fs, o))
    ensures now == c || (Commits(a, o) && now == a.writes[Live(o)])
    ensures now != Partial && Held(After(fs, a), o, now)
  {
    hide After;
    now := c;
    if !Commits(a, o) {
      AttemptHolds(fs, a, o, c);
    } else {
      WholeUnlessTorn(fs, a, o, c);
      if a.Succeeded? { SucceededCommits(fs, a.outputs, a.writes, o); }
      if !Held(After(fs, a), o, c) { now := a.writes[Live(o)]; }
    }
  }

  /** And a directory that is not empty is lost for good: some stop of any commit of o, and then any failed attempt
      at o, leave neither the old content nor the new. */
  lemma DirectoryIsLost(fs: Files, outputs: seq<Output>, writes: Files, o: Output, c: Content, next: Attempt) returns (k: nat)
    requires Distinct(outputs) && o in outputs && Held(fs, o, c) && !AtOnce(c)
    requires next.Failed? && Distinct(next.outputs) && o in next.outputs
    ensures var fs' := AfterAll(fs, [StoppedInCommit(outputs, writes, k), next]);
      Backup(o) !in fs' && Live(o) in fs' && fs'[Live(o)] == Partial
  {
    hide After;
    k := CommitTears(fs, outputs, writes, o, c);
    var a := StoppedInCommit(outputs, writes, k);
    FailedPutsBack(After(fs, a), next.outputs, next.writes, o);
    assert [a, next][..1] == [a] && [a][..0] == [];
    assert AfterAll(fs, [a]) == After(fs, a);
    assert AfterAll(fs, [a, next]) == After(After(fs, a), next);
  }

  /** A directory backup half removed when the machine stops stays half removed. */
  lemma DirectoryHalfRemoved(o: Output, was: seq<int>, now: seq<int>)
    requires was != []
    ensures After(map[Live(o) := Folder(was)], StoppedInCommit([o], map[Live(o) := Folder(now)], 1))
         == map[Live(o) := Folder(now), Backup(o) := Partial]
  {
    hide BeginOne, BeginAll;
    var fs: Files := map[Live(o) := Folder(was)];
    forall p: Path ensures SameAt(map[Backup(o) := Folder(was)], Begun(fs, [o]), p) {
      BeginEffect(fs, [o], p.output);
    }
    SameEverywhere(map[Backup(o) := Folder(was)], Begun(fs, [o]));
    var built := Built(Begun(fs, [o]), [o], map[Live(o) := Folder(now)]);
    assert built == map[Live(o) := Folder(now), Backup(o) := Folder(was)];
    assert [o][..0] == [];
    assert FinishAll(built, [o], Saved(fs, [o]), true) == FinishOne(built, o, true, true);
  }

  /** Not so a directory: an attempt stopped inside the removal of its backup, and then a failed
      attempt, lose both the old and the new content. */
  lemma DirectoryCanBeLost(o: Output, was: seq<int>, now: seq<int>)
    requires was != []
    ensures var run := [StoppedInCommit([o], map[Live(o) := Folder(now)], 1), Failed([o], map[])];
      AfterAll(map[Live(o) := Folder(was)], run) == map[Live(o) := Partial]
  {
    hide After;
    var fs: Files := map[Live(o) := Folder(was)];
    var a, b := StoppedInCommit([o], map[Live(o) := Folder(now)], 1), Failed([o], map[]);
    DirectoryHalfRemoved(o, was, now);
    var fs1: Files := map[Live(o) := Folder(now), Backup(o) := Partial];
    forall p: Path ensures SameAt(map[Live(o) := Partial], After(fs1, b), p) { FailedPutsBack(fs1, [o], b.writes, p.output); }
    SameEverywhere(map[Live(o) := Partial], After(fs1, b));
    assert [a, b][..1] == [a] && [a][..0] == [];
    assert AfterAll(fs, [a]) == fs1;
    assert AfterAll(fs, [a, b]) == After(fs1, b);
  }
}
