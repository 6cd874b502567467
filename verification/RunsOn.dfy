/** Running in another provider's image: when the input hash notices that the image has changed. */
module RunsOn {
  import opened Wrappers
  import opened OutputIndex
  import opened Transactions
  import opened BuildCache
  import opened Runner

  /** Provider i runs in the image that provider k builds. */
  predicate ImageOf(plan: seq<Provider>, i: nat, k: nat)
    requires i < |plan|
  {
    k < i && plan[i].description.runsOn.Some? && plan[k].tags != [] && plan[k].tags[0] == plan[i].description.runsOn.value
  }

  /** The output o is what provider i makes of its inputs, in the image as provider k now builds it. */
  ghost predicate MadeIn(make: Make, plan: seq<Provider>, i: nat, k: nat, w: World, o: Output)
    requires i < |plan| && k < |plan|
  {
    Live(o) in w.files && Holds(w.files[Live(o)], make(o, DigestFor(plan, i, w, o), BaseFor(plan, k, w)))
  }

  /** The entry is what a run of this plan on these files has recorded of the file o. */
  ghost predicate RecordedBy(make: Make, plan: seq<Provider>, i: nat, k: nat, w: World, o: Output, e: Entry)
    requires i < |plan| && k < |plan|
  {
    && Ordered(plan) && ImageOf(plan, i, k) && e.inputs == DigestFor(plan, i, w, o)
    && e.kind.Regular? && e.hash == OfBytes(e.kind.stamp.content) && make(o, e.inputs, BaseFor(plan, k, w)) == FileOf(e.kind.stamp.content)
  }

  // ---- Images that are seen ----

  lemma OneProvider(plan: seq<Provider>, i: nat, k: nat, t: Name)
    requires Ordered(plan) && i < |plan| && k < |plan| && t in plan[i].tags && t in plan[k].tags
    ensures i == k
  {
    hide WellFormed;
  }

  lemma BaseOfDigest(plan: seq<Provider>, i: nat, w: World, o: Output)
    requires i < |plan|
    ensures Base(DigestFor(plan, i, w, o)) == BaseFor(plan, i, w)
    ensures BaseFor(plan, i, w).OfInputs? && BaseFor(plan, i, w).description == plan[i].description
  {
  }

  /** If the image is seen, a clean output is what a build in the present image makes: whatever
      catalogue an earlier run was of, and whatever files it met. */
  lemma SeenIsMade(make: Make, plan: seq<Provider>, i: nat, k: nat, w: World, o: Output,
                   plan': seq<Provider>, i': nat, k': nat, w': World, e: Entry)
    requires Ordered(plan) && i < |plan| && ImageOf(plan, i, k) && Sees(plan, i, plan[i].description.runsOn.value)
    requires i' < |plan'| && k' < |plan'| && RecordedBy(make, plan', i', k', w', o, e)
    requires !IsDirty(o, DigestFor(plan, i, w, o), map[o := e], w.files)
    ensures MadeIn(make, plan, i, k, w, o)
  {
    hide HashesOf, Ordered, DigestFor, BaseFor;
    var t := plan[i].description.runsOn.value;
    BaseOfDigest(plan, i, w, o);
    BaseOfDigest(plan', i', w', o);
    var k1 := SeenIsShown(plan, i, w, t);
    OneProvider(plan, k, k1, t);
    var k2 := ShownIsSeen(plan', i', w', t, BaseFor(plan, k, w));
    OneProvider(plan', k', k2, t);
  }

  // ---- Images that are not ----

  /** The plan, with the directory that an image is built from edited. */
  function Edited(plan: seq<Provider>, k: nat, sources: int): seq<Provider>
    requires k < |plan|
  {
    plan[k := plan[k].(description := plan[k].description.(sources := sources))]
  }

  lemma EditedIsOrdered(plan: seq<Provider>, k: nat, sources: int)
    requires k < |plan| && Ordered(plan)
    ensures Ordered(Edited(plan, k, sources))
  {
    hide Apart;
    var plan' := Edited(plan, k, sources);
    forall i, j | 0 <= i < j < |plan'| ensures Apart(plan'[i], plan'[j]) {
      ApartFrom(plan[i], plan[j], plan'[i], plan'[j]);
    }
    forall i | 0 <= i < |plan'| ensures WellFormed(plan', i) {
      assert WellFormed(plan, i);
      forall o | Available(plan, i, o) ensures Available(plan', i, o) { StillAvailable(plan, k, sources, i, o); }
    }
  }

  lemma ApartFrom(p: Provider, q: Provider, p': Provider, q': Provider)
    requires Apart(p, q) && p' == p.(description := p'.description) && q' == q.(description := q'.description)
    ensures Apart(p', q')
  {
  }

  lemma StillAvailable(plan: seq<Provider>, k: nat, sources: int, i: nat, o: Output)
    requires k < |plan| && i < |plan| && Available(plan, i, o)
    ensures Available(Edited(plan, k, sources), i, o)
  {
    var plan' := Edited(plan, k, sources);
    if Provided(plan, i, o) {
      var j :| 0 <= j < i && o in plan[j].needed;
      assert o in plan'[j].needed;
    } else {
      forall j | 0 <= j < |plan'| ensures o !in plan'[j].outputs { assert o !in plan[j].outputs; }
    }
  }

  ghost predicate OnlyFiles(w: World) {
    forall p :: p in w.files ==> w.files[p].File?
  }

  /** The hashes of needed files are those of the files, whatever the providers' own. */
  lemma {:induction false} FilesHashed(plan: seq<Provider>, k: nat, sources: int, n: nat, w: World, o: Output)
    requires k < |plan| && n <= |plan| && OnlyFiles(w)
    ensures Artefact(o) in HashesOf(plan, n, w) <==> Artefact(o) in HashesOf(Edited(plan, k, sources), n, w)
    ensures Artefact(o) in HashesOf(plan, n, w) ==>
      HashesOf(plan, n, w)[Artefact(o)] == HashesOf(Edited(plan, k, sources), n, w)[Artefact(o)]
  {
    hide Extended;
    if n > 0 {
      var plan' := Edited(plan, k, sources);
      FilesHashed(plan, k, sources, n - 1, w, o);
      ExtendedFile(HashesOf(plan, n - 1, w), plan[n - 1], w, o);
      ExtendedFile(HashesOf(plan', n - 1, w), plan'[n - 1], w, o);
    }
  }

  /** A provider that does not see the image keeps its input hash when the image is edited. */
  lemma {:induction false} UnseenKeeps(plan: seq<Provider>, k: nat, sources: int, j: nat, w: World, t: Name)
    requires Ordered(plan) && k < |plan| && j < |plan| && j != k && plan[k].tags != [] && plan[k].tags[0] == t && !Sees(plan, j, t) && OnlyFiles(w)
    ensures BaseFor(Edited(plan, k, sources), j, w) == BaseFor(plan, j, w)
    decreases j
  {
    hide HashesOf, Ordered, BaseFor;
    var plan' := Edited(plan, k, sources);
    EditedIsOrdered(plan, k, sources);
    forall r | r in plan[j].refs ensures RefDigest(HashesOf(plan', j, w), w, r) == RefDigest(HashesOf(plan, j, w), w, r) {
      if r.Artefact? {
        FilesHashed(plan, k, sources, j, w, r.output);
      } else if r in HashesOf(plan, j, w) {
        var m := TagIsProvided(plan, j, w, r.tag);
        TagHashed(plan, j, w, m, r.tag);
        TagHashed(plan', j, w, m, r.tag);
        assert !SeesBy(plan, j, t, r, m);
        UnseenKeeps(plan, k, sources, m, w, t);
      } else if r in HashesOf(plan', j, w) {
        var m := TagIsProvided(plan', j, w, r.tag);
        TagHashed(plan, j, w, m, r.tag);
      }
    }
    SameRefsSameBase(plan, plan', j, w);
  }

  lemma SameRefsSameBase(plan: seq<Provider>, plan': seq<Provider>, j: nat, w: World)
    requires j < |plan| == |plan'| && plan[j] == plan'[j]
    requires forall r :: r in plan[j].refs ==> RefDigest(HashesOf(plan', j, w), w, r) == RefDigest(HashesOf(plan, j, w), w, r)
    ensures BaseFor(plan', j, w) == BaseFor(plan, j, w)
  {
    hide HashesOf, RefDigest;
  }

  lemma OutputKeeps(plan: seq<Provider>, k: nat, sources: int, i: nat, w: World, o: Output)
    requires i < |plan| && k < |plan| && i != k && OnlyFiles(w) && BaseFor(Edited(plan, k, sources), i, w) == BaseFor(plan, i, w)
    ensures DigestFor(Edited(plan, k, sources), i, w, o) == DigestFor(plan, i, w, o)
  {
    hide HashesOf, BaseFor;
    var plan' := Edited(plan, k, sources);
    forall r | r in Extra(plan[i], o)
      ensures RefDigest(HashesOf(plan', i, w), w, Artefact(r)) == RefDigest(HashesOf(plan, i, w), w, Artefact(r))
    {
      FilesHashed(plan, k, sources, i, w, r);
    }
  }

  /** A builder that tells the image with this input hash from all others. */
  function Telling(image: Digest): Make {
    (o: Output, d: Digest, i: Digest) => FileOf(if i == image then [0] else [1])
  }

  /** If the image is not seen, it takes no more than an edit of the image's directory: the output
      recorded before the edit is clean, and not what a build makes. */
  lemma UnseenIsMissed(plan: seq<Provider>, i: nat, k: nat, o: Output) returns (make: Make, sources: int, w: World, e: Entry)
    requires Ordered(plan) && i < |plan| && ImageOf(plan, i, k) && !Sees(plan, i, plan[i].description.runsOn.value)
    ensures RecordedBy(make, Edited(plan, k, sources), i, k, w, o, e) && MadeIn(make, Edited(plan, k, sources), i, k, w, o)
    ensures !IsDirty(o, DigestFor(plan, i, w, o), map[o := e], w.files) && !MadeIn(make, plan, i, k, w, o)
  {
    hide HashesOf, Ordered;
    sources := plan[k].description.sources + 1;
    w := World(map[Live(o) := File([1], 0)], map[]);
    make := Telling(BaseFor(plan, k, w));
    var before := Edited(plan, k, sources);
    EditedIsOrdered(plan, k, sources);
    UnseenKeeps(plan, k, sources, i, w, plan[i].description.runsOn.value);
    OutputKeeps(plan, k, sources, i, w, o);
    assert BaseFor(before, k, w) != BaseFor(plan, k, w);
    e := Entry(DigestFor(before, i, w, o), OfBytes([1]), Regular(Stamp(0, [1])));
  }

  ghost predicate CleanIsMadeIn(make: Make, plan: seq<Provider>, i: nat, k: nat, w: World, o: Output,
                                plan': seq<Provider>, i': nat, k': nat, w': World, e: Entry)
    requires i < |plan| && k < |plan|
  {
    (i' < |plan'| && k' < |plan'| && RecordedBy(make, plan', i', k', w', o, e) && !IsDirty(o, DigestFor(plan, i, w, o), map[o := e], w.files))
    ==> MadeIn(make, plan, i, k, w, o)
  }

  /** Whatever the builders, the files and the earlier run: clean means made, if and only if the
      image is among the requirements, or among those of an image required. */
  lemma CleanIsMadeIff(plan: seq<Provider>, i: nat, k: nat, o: Output)
    requires Ordered(plan) && i < |plan| && ImageOf(plan, i, k)
    ensures (forall make: Make, w, plan', i': nat, k': nat, w', e :: CleanIsMadeIn(make, plan, i, k, w, o, plan', i', k', w', e))
      <==> Sees(plan, i, plan[i].description.runsOn.value)
  {
    hide Ordered, MadeIn, RecordedBy, IsDirty, DigestFor;
    if Sees(plan, i, plan[i].description.runsOn.value) {
      forall make: Make, w, plan', i': nat, k': nat, w', e ensures CleanIsMadeIn(make, plan, i, k, w, o, plan', i', k', w', e) {
        if i' < |plan'| && k' < |plan'| && RecordedBy(make, plan', i', k', w', o, e) && !IsDirty(o, DigestFor(plan, i, w, o), map[o := e], w.files) {
          SeenIsMade(make, plan, i, k, w, o, plan', i', k', w', e);
        }
      }
    } else {
      var make, sources, w, e := UnseenIsMissed(plan, i, k, o);
      assert !CleanIsMadeIn(make, plan, i, k, w, o, Edited(plan, k, sources), i, k, w, e);
    }
  }

  // ---- A run that leaves an output as no build would make it ----

  const TOOLS := Name("tools")
  const PROGRAM := Name("program")

  /** The image, with its directory as it is now. */
  function Tools(sources: int): Provider {
    Provider(Description(sources, true, None), {}, {}, [TOOLS], TOOLS, {}, [], map[])
  }

  /** What runs in it, without requiring it. */
  function Program(): Provider {
    Provider(Description(0, false, Some(TOOLS)), {}, {}, [], PROGRAM, {PROGRAM}, [PROGRAM], map[])
  }

  function ToolsHash(sources: int): Digest {
    OfInputs(Description(sources, true, None), [TOOLS], map[], map[])
  }

  function ProgramHash(): Digest {
    OfInputs(Description(0, false, Some(TOOLS)), [], map[], map[])
  }

  /** What a run over Tools(sources) and Program has recorded, the program having been made from
      Tools(0). */
  function Record(sources: int): Cache {
    Cache(map[PROGRAM := Entry(ProgramHash(), OfBytes([0]), Regular(Stamp(0, [0])))],
          map[(TOOLS, ImageId(ToolsHash(sources), 0)) := ToolsHash(sources)])
  }

  ghost predicate Stale(make: Make, fs: Files, sources: int, images: Images) {
    && make == Telling(ToolsHash(0)) && fs == map[Live(PROGRAM) := File([0], 0)]
    && images == map[TOOLS := ImageId(ToolsHash(sources), 0)]
  }

  lemma NoRefs(p: Provider, deps: Hashes, w: World)
    requires p.refs == {} && p.mounts == {}
    ensures InputDigest(p, deps, w) == OfInputs(p.description, p.tags, map[], map[])
  {
    assert InputDigest(p, deps, w).inputs.Keys == {} && InputDigest(p, deps, w).mounts.Keys == {};
  }

  lemma TheirHashes(sources: int, w: World)
    ensures var plan := [Tools(sources), Program()];
      BaseFor(plan, 0, w) == ToolsHash(sources) && BaseFor(plan, 1, w) == DigestFor(plan, 1, w, PROGRAM) == ProgramHash()
  {
    hide HashesOf, InputDigest;
    var plan := [Tools(sources), Program()];
    NoRefs(plan[0], HashesOf(plan, 0, w), w);
    NoRefs(plan[1], HashesOf(plan, 1, w), w);
  }

  lemma TheyAreOrdered(sources: int)
    ensures var plan := [Tools(sources), Program()];
      Ordered(plan) && ImageOf(plan, 1, 0)
  {
    assert TOOLS.text != PROGRAM.text;
  }

  lemma RecordIsSound(sources: int)
    ensures Sound(Telling(ToolsHash(0)), Record(sources))
  {
    assert forall image :: !RunsIn(ProgramHash(), image);
  }

  /** After Tools(0) all is well. After Tools(1) nothing is dirty and the cache is sound, but the
      program is not what is made in the image there is. */
  lemma StaleIsClean(make: Make, fs: Files, sources: int, images: Images)
    requires Stale(make, fs, sources, images)
    ensures var plan := [Tools(sources), Program()];
      && Ordered(plan) && Sound(make, Record(sources)) && AllUpToDate(plan, 2, fs, Record(sources), images)
      && ImageOf(plan, 1, 0) && (MadeIn(make, plan, 1, 0, At(fs, Record(sources)), PROGRAM) <==> sources == 0)
  {
    hide HashesOf, BaseFor, DigestFor, Ordered, Sound, RunsIn;
    TheirHashes(sources, At(fs, Record(sources)));
    TheyAreOrdered(sources);
    RecordIsSound(sources);
  }

  /** A run after the edit succeeds, and leaves it at that. */
  method RunOverStale(e: Engine, outs: seq<Outcome>) returns (ok: bool)
    requires e.Valid() && e.saved == Record(1) && Stale(e.make, e.disk.files, 1, e.images) && |outs| == 2
    modifies e`images, e`saved, e`saves, e.disk
    ensures ok && ImageOf([Tools(1), Program()], 1, 0) && !MadeIn(e.make, [Tools(1), Program()], 1, 0, At(e.disk.files, e.saved), PROGRAM)
  {
    StaleIsClean(e.make, e.disk.files, 1, e.images);
    var ran;
    ok, ran := e.Run([Tools(1), Program()], false, outs);
  }
}
