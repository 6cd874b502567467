/** The build loop: bring every needed output up to date, doing no more than the hashes call for. */
module Runner {
  import opened Wrappers
  import opened OutputIndex
  import opened Transactions
  import opened BuildCache
  import opened Sequences

  /** What the outside makes of one provider: whether its image gets built, and whether its
      container succeeds, which outputs it omits, and what a failing one leaves behind. */
  datatype Outcome = Outcome(imageBuilt: bool, serial: int, ran: bool, omitted: set<Output>, mtime: int, junk: Files)

  type Images = map<Name, ImageId>

  // ---- Up to date ----

  ghost predicate Current(cache: Cache, images: Images, t: Name, d: Digest) {
    t in images && (t, images[t]) in cache.images && cache.images[(t, images[t])] == d
  }

  predicate Buildable(p: Provider) {
    !(p.tags != [] && !p.description.dockerfile) && !(p.outputs != {} && !p.description.dockerfile && p.description.runsOn.None?)
  }

  predicate Skipped(p: Provider) {
    p.tags == [] && p.outputs == {}
  }

  function RunTag(p: Provider): Name {
    if p.description.runsOn.Some? then p.description.runsOn.value else Tag(p)
  }

  ghost predicate UpToDate(plan: seq<Provider>, i: nat, fs: Files, cache: Cache, images: Images)
    requires i < |plan|
  {
    var p, w := plan[i], At(fs, cache);
    Skipped(p) || (Buildable(p)
      && (p.description.dockerfile ==> Current(cache, images, Tag(p), BaseFor(plan, i, w)))
      && forall o :: o in p.needed ==> !IsDirty(o, DigestFor(plan, i, w, o), cache.entries, fs))
  }

  ghost predicate AllUpToDate(plan: seq<Provider>, n: nat, fs: Files, cache: Cache, images: Images)
    requires n <= |plan|
  {
    forall i :: 0 <= i < n ==> UpToDate(plan, i, fs, cache, images)
  }

  /** With a sound cache, and directories left alone, up to date means finished. */
  lemma UpToDateIsConsistent(make: Make, plan: seq<Provider>, n: nat, fs: Files, cache: Cache, images: Images)
    requires n <= |plan| && Ordered(plan) && Sound(make, cache) && AllUpToDate(plan, n, fs, cache, images) && Intact(make, At(fs, cache))
    ensures Consistent(make, plan, n, At(fs, cache))
  {
    hide IsDirty, Sound, MadeFrom, IntactAt;
    var w := At(fs, cache);
    forall i, o | 0 <= i < n && o in plan[i].needed ensures MadeFrom(make, fs, o, DigestFor(plan, i, w, o)) {
      assert WellFormed(plan, i) && UpToDate(plan, i, fs, cache, images);
      CleanIsMade(make, o, DigestFor(plan, i, w, o), cache, fs);
      assert IntactAt(make, w, o);
    }
  }

  // ---- The hashes handed down ----

  /** The hashes at hand are those of the first n providers, and perhaps some of outputs that
      nobody needs. */
  ghost predicate Agrees(plan: seq<Provider>, n: nat, w: World, deps: Hashes)
    requires n <= |plan|
  {
    && (forall r :: r in HashesOf(plan, n, w) ==> r in deps && deps[r] == HashesOf(plan, n, w)[r])
    && (forall t :: Image(t) in deps ==> Image(t) in HashesOf(plan, n, w))
    && (forall o :: Artefact(o) in deps ==> !External(plan, o))
  }

  /** The input hash computed with the hashes at hand is the one the specification calls for. */
  lemma AgreedBase(plan: seq<Provider>, n: nat, w: World, deps: Hashes)
    requires n < |plan| && Ordered(plan) && Agrees(plan, n, w, deps)
    requires forall o :: Provided(plan, n, o) ==> Live(o) in w.files
    ensures InputDigest(plan[n], deps, w) == BaseFor(plan, n, w)
  {
    hide HashesOf;
    var p, h := plan[n], HashesOf(plan, n, w);
    assert WellFormed(plan, n);
    forall r | r in p.refs ensures RefDigest(deps, w, r) == RefDigest(h, w, r) {
      if r.Artefact? && Provided(plan, n, r.output) {
        NeededHashed(plan, n, w, r.output);
      }
    }
  }

  /** The hash handed down of a needed output is that of its provider's turn. */
  lemma {:induction false} HashedAt(plan: seq<Provider>, n: nat, w: World, i: nat, o: Output)
    requires i < n <= |plan| && Ordered(plan) && o in plan[i].needed && Live(o) in w.files
    ensures Artefact(o) in HashesOf(plan, n, w)
    ensures HashesOf(plan, n, w)[Artefact(o)] == NeededHash(plan[i], BaseFor(plan, i, w), HashesOf(plan, i, w), w, o)
  {
    hide Extended, NeededHash, InputDigest, External, Available;
    ExtendedFile(HashesOf(plan, n - 1, w), plan[n - 1], w, o);
    if i < n - 1 {
      HashedAt(plan, n - 1, w, i, o);
      assert WellFormed(plan, i) && WellFormed(plan, n - 1) && Apart(plan[i], plan[n - 1]);
    }
  }

  lemma HashIsProvided(plan: seq<Provider>, n: nat, w: World, o: Output)
    requires n <= |plan| && Artefact(o) in HashesOf(plan, n, w)
    ensures Provided(plan, n, o) && Live(o) in w.files
  {
    hide Extended;
    ExtendedFile(HashesOf(plan, n - 1, w), plan[n - 1], w, o);
    if !(o in plan[n - 1].needed && Live(o) in w.files) {
      HashIsProvided(plan, n - 1, w, o);
    }
  }

  /** Read off the disk, an input made in this run counts as it does when handed down. */
  lemma PathAgrees(make: Make, plan: seq<Provider>, n: nat, fs: Files, cache: Cache, images: Images, o: Output)
    requires n <= |plan| && Ordered(plan) && Sound(make, cache) && AllUpToDate(plan, n, fs, cache, images)
    ensures PathDigest(At(fs, cache), o) == RefDigest(HashesOf(plan, n, At(fs, cache)), At(fs, cache), Artefact(o))
  {
    hide HashesOf, BaseFor, Sound, IsDirty, OutputDigest;
    var w := At(fs, cache);
    if Artefact(o) in HashesOf(plan, n, w) {
      HashIsProvided(plan, n, w, o);
      var i :| 0 <= i < n && o in plan[i].needed;
      HashedAt(plan, n, w, i, o);
      assert WellFormed(plan, i) && UpToDate(plan, i, fs, cache, images);
      CleanIsMade(make, o, DigestFor(plan, i, w, o), cache, fs);
    }
  }

  /** The hashes of the needed outputs as computed are those the specification calls for. */
  ghost predicate OutputsAgree(plan: seq<Provider>, n: nat, w: World)
    requires n < |plan|
  {
    forall o :: o in plan[n].needed ==> OutputDigest(plan[n], BaseFor(plan, n, w), map[], w, o) == DigestFor(plan, n, w, o)
  }

  lemma AgreedOutputs(make: Make, plan: seq<Provider>, n: nat, fs: Files, cache: Cache, images: Images)
    requires n < |plan| && Ordered(plan) && Sound(make, cache) && AllUpToDate(plan, n, fs, cache, images)
    ensures OutputsAgree(plan, n, At(fs, cache))
  {
    hide HashesOf, BaseFor, Sound, AllUpToDate, PathDigest;
    var p, w := plan[n], At(fs, cache);
    forall o | o in p.needed ensures OutputDigest(p, BaseFor(plan, n, w), map[], w, o) == DigestFor(plan, n, w, o) {
      forall r | r in Extra(p, o) ensures RefDigest(map[], w, Artefact(r)) == RefDigest(HashesOf(plan, n, w), w, Artefact(r)) {
        PathAgrees(make, plan, n, fs, cache, images, r);
      }
    }
  }

  function Noted(deps: Hashes, outputs: set<Output>, cache: Cache, fs: Files): Hashes {
    deps + map o | o in outputs && o in cache.entries && Live(o) in fs :: Artefact(o) := cache.entries[o].hash
  }

  // ---- Recording ----

  function EntryFor(p: Provider, base: Digest, w: World, o: Output): Entry
    requires Live(o) in w.files
  {
    var d, c := OutputDigest(p, base, map[], w, o), w.files[Live(o)];
    if c.File? then Entry(d, ContentDigest(c), Regular(StampOf(c))) else Entry(d, d, Directory)
  }

  /** The cache, with an entry for each of the outputs as it is now. */
  function Recorded(cache: Cache, p: Provider, base: Digest, fs: Files, outputs: seq<Output>): Cache
    requires forall o :: o in outputs ==> Live(o) in fs
  {
    cache.(entries := cache.entries + map o | o in outputs :: EntryFor(p, base, At(fs, cache), o))
  }

  lemma RecordNext(cache: Cache, p: Provider, base: Digest, fs: Files, outputs: seq<Output>, o: Output)
    requires forall q :: q in outputs + [o] ==> Live(q) in fs
    requires forall r :: r in Extra(p, o) ==> r !in outputs
    ensures var before := Recorded(cache, p, base, fs, outputs);
      Recorded(cache, p, base, fs, outputs + [o]) == before.(entries := before.entries[o := EntryFor(p, base, At(fs, before), o)])
  {
    hide EntryFor;
    var before, w := Recorded(cache, p, base, fs, outputs), At(fs, cache);
    assert forall r :: r in Extra(p, o) ==> PathDigest(At(fs, before), r) == PathDigest(w, r);
    SameEntryFor(p, base, w, At(fs, before), o);
    EntriesNext(p, base, w, outputs, o);
    var m := map q | q in outputs :: EntryFor(p, base, w, q);
    assert cache.entries + m[o := EntryFor(p, base, w, o)] == (cache.entries + m)[o := EntryFor(p, base, w, o)];
  }

  lemma EntriesNext(p: Provider, base: Digest, w: World, outputs: seq<Output>, o: Output)
    requires forall q :: q in outputs + [o] ==> Live(q) in w.files
    ensures (map q | q in outputs + [o] :: EntryFor(p, base, w, q)) == (map q | q in outputs :: EntryFor(p, base, w, q))[o := EntryFor(p, base, w, o)]
  {
    hide EntryFor;
    assert forall q :: q in outputs + [o] <==> q in outputs || q == o;
  }

  lemma SameOutputDigest(p: Provider, base: Digest, w: World, w': World, o: Output)
    requires forall r :: r in Extra(p, o) ==> PathDigest(w, r) == PathDigest(w', r)
    ensures OutputDigest(p, base, map[], w, o) == OutputDigest(p, base, map[], w', o)
  {
    hide PathDigest;
    assert forall r :: r in Extra(p, o) ==> RefDigest(map[], w, Artefact(r)) == RefDigest(map[], w', Artefact(r));
  }

  lemma SameEntryFor(p: Provider, base: Digest, w: World, w': World, o: Output)
    requires w.files == w'.files && Live(o) in w.files && forall r :: r in Extra(p, o) ==> PathDigest(w, r) == PathDigest(w', r)
    ensures EntryFor(p, base, w, o) == EntryFor(p, base, w', o)
  {
    hide PathDigest, OutputDigest;
    SameOutputDigest(p, base, w, w', o);
  }

  function Put(made: Product, mtime: int): Content {
    match made
    case FileOf(bytes) => File(bytes, mtime)
    case TreeOf(bytes) => Folder(bytes)
  }

  function Written(make: Make, p: Provider, base: Digest, w: World, image: ImageId, outputs: seq<Output>, out: Outcome): Files {
    map o | o in outputs && o !in out.omitted :: Live(o) := Put(make(o, OutputDigest(p, base, map[], w, o), image.inputs), out.mtime)
  }

  /** The files are as a successful container leaves them. */
  ghost predicate Produced(make: Make, p: Provider, base: Digest, w: World, fs': Files, image: ImageId, outputs: seq<Output>) {
    && (forall o :: o in outputs ==> ProducedAt(make, p, base, w, fs', image, o))
    && (forall o :: o !in outputs ==> SameOutput(w.files, fs', o))
  }

  ghost predicate ProducedAt(make: Make, p: Provider, base: Digest, w: World, fs': Files, image: ImageId, o: Output) {
    Live(o) in fs' && Holds(fs'[Live(o)], make(o, OutputDigest(p, base, map[], w, o), image.inputs)) && Backup(o) !in fs'
  }

  lemma AllThere(make: Make, p: Provider, base: Digest, w: World, fs': Files, image: ImageId, outputs: seq<Output>)
    requires Produced(make, p, base, w, fs', image, outputs)
    ensures forall o :: o in outputs ==> Live(o) in fs'
  {
    hide Holds, OutputDigest;
    forall o | o in outputs ensures Live(o) in fs' { assert ProducedAt(make, p, base, w, fs', image, o); }
  }

  ghost predicate ReadsOthers(p: Provider, outputs: seq<Output>) {
    forall o, r :: o in outputs && r in Extra(p, o) ==> r !in outputs
  }

  lemma DigestsKeep(p: Provider, base: Digest, w: World, w': World, outputs: seq<Output>, o: Output)
    requires ReadsOthers(p, outputs) && o in outputs
    requires forall q :: q !in outputs ==> PathDigest(w, q) == PathDigest(w', q)
    ensures OutputDigest(p, base, map[], w, o) == OutputDigest(p, base, map[], w', o)
  {
    SameOutputDigest(p, base, w, w', o);
  }

  /** If the inputs tell which image to run in, it is this one. */
  ghost predicate CallsFor(base: Digest, image: Digest) {
    forall d :: RunsIn(base, d) ==> d == image
  }

  lemma PathsKept(w: World, w': World, outputs: seq<Output>)
    requires forall o :: o !in outputs ==> SameOutput(w.files, w'.files, o) && (o in w.entries <==> o in w'.entries)
    requires forall o :: o !in outputs && o in w.entries ==> w.entries[o] == w'.entries[o]
    ensures forall o :: o !in outputs ==> PathDigest(w, o) == PathDigest(w', o)
  {
  }

  /** What is recorded of an output just made is sound, and the output is clean. */
  lemma EntryIsSound(make: Make, p: Provider, base: Digest, w: World, w': World, image: ImageId, o: Output)
    requires ProducedAt(make, p, base, w, w'.files, image, o) && base.OfInputs? && CallsFor(base, image.inputs)
    requires OutputDigest(p, base, map[], w, o) == OutputDigest(p, base, map[], w', o)
    ensures var e := EntryFor(p, base, w', o);
      && SoundEntry(make, o, e) && MadeFrom(make, w'.files, o, e.inputs) && e.inputs == OutputDigest(p, base, map[], w', o)
      && forall entries :: o in entries && entries[o] == e ==> !IsDirty(o, e.inputs, entries, w'.files)
  {
    hide RunsIn;
    assert Base(OutputDigest(p, base, map[], w', o)) == base;
  }

  /** What a run records is sound: outputs just made, in the image their inputs call for. */
  lemma RecordedIsSound(make: Make, cache: Cache, p: Provider, base: Digest, fs: Files, fs': Files, image: ImageId, outputs: seq<Output>)
    requires Sound(make, cache) && Produced(make, p, base, At(fs, cache), fs', image, outputs) && ReadsOthers(p, outputs)
    requires base.OfInputs? && CallsFor(base, image.inputs)
    ensures var cache' := Recorded(cache, p, base, fs', outputs);
      && Sound(make, cache') && (Intact(make, At(fs, cache)) ==> Intact(make, At(fs', cache')))
      && forall o :: o in outputs ==> !IsDirty(o, OutputDigest(p, base, map[], At(fs, cache), o), cache'.entries, fs')
  {
    hide CallsFor, IsDirty, SoundEntry, OutputDigest, MadeFrom, RunsIn;
    var cache', w, w' := Recorded(cache, p, base, fs', outputs), At(fs, cache), At(fs', cache);
    PathsKept(w, w', outputs);
    forall o | o in outputs
      ensures SoundEntry(make, o, cache'.entries[o]) && MadeFrom(make, fs', o, cache'.entries[o].inputs)
      ensures !IsDirty(o, OutputDigest(p, base, map[], w, o), cache'.entries, fs')
    {
      DigestsKeep(p, base, w, w', outputs, o);
      EntryIsSound(make, p, base, w, w', image, o);
    }
    forall o | o in cache'.entries ensures SoundEntry(make, o, cache'.entries[o]) {
      assert o !in outputs ==> SoundEntry(make, o, cache.entries[o]);
    }
    if Intact(make, w) {
      forall o | o in cache'.entries ensures IntactAt(make, At(fs', cache'), o) {
        if o !in outputs { assert IntactAt(make, w, o) && SameOutput(fs, fs', o); SameMade(make, fs, fs', o, cache.entries[o].inputs); }
      }
    }
  }

  lemma SameMade(make: Make, fs: Files, fs': Files, o: Output, d: Digest)
    requires SameAt(fs, fs', Live(o))
    ensures MadeFrom(make, fs, o, d) <==> MadeFrom(make, fs', o, d)
  {
    hide RunsIn;
  }

  // ---- One provider after another ----

  /** What a step at provider n does to files, cache and images: it builds what is dirty and
      touches nothing else. */
  ghost predicate Stepped(plan: seq<Provider>, n: nat, force: bool, fs: Files, fs': Files,
      cache: Cache, cache': Cache, images: Images, images': Images, dirty: seq<Output>)
    requires n < |plan|
  {
    var p, w := plan[n], At(fs, cache);
    && (forall o :: o in dirty <==> o in p.needed && (force || IsDirty(o, DigestFor(plan, n, w, o), cache.entries, fs)))
    && (forall o :: o !in dirty ==> SameOutput(fs, fs', o) && SameEntry(cache, cache', o))
    && (forall t :: t != Tag(p) ==> SameImage(cache, cache', images, images', t))
    && UpToDate(plan, n, fs', cache', images')
  }

  ghost predicate SameEntry(cache: Cache, cache': Cache, o: Output) {
    (o in cache.entries <==> o in cache'.entries) && (o in cache.entries ==> cache.entries[o] == cache'.entries[o])
  }

  ghost predicate SameImage(cache: Cache, cache': Cache, images: Images, images': Images, t: Name) {
    && (t in images <==> t in images') && (t in images ==> images[t] == images'[t])
    && forall k :: k in cache.images && k.0 == t ==> k in cache'.images && cache'.images[k] == cache.images[k]
  }

  /** What provider n needs to have made, no earlier provider makes, and none of them requires. */
  lemma NotAvailable(plan: seq<Provider>, n: nat, o: Output)
    requires n < |plan| && Ordered(plan) && Available(plan, n, o)
    ensures o !in plan[n].needed
  {
    assert WellFormed(plan, n);
    if Provided(plan, n, o) {
      var i :| 0 <= i < n && o in plan[i].needed;
      assert WellFormed(plan, i);
      assert Apart(plan[i], plan[n]);
    }
  }

  lemma SameImageSelf(cache: Cache, images: Images)
    ensures forall t :: SameImage(cache, cache, images, images, t)
  {
  }

  lemma StepKeepsInputs(plan: seq<Provider>, n: nat, fs: Files, fs': Files, cache: Cache, cache': Cache, dirty: seq<Output>)
    requires n < |plan| && Ordered(plan) && forall o :: o in dirty ==> o in plan[n].needed
    requires forall o :: o !in dirty ==> SameOutput(fs, fs', o) && SameEntry(cache, cache', o)
    ensures SameInputs(plan, n, At(fs, cache), At(fs', cache'))
  {
    hide Available, Ordered, External;
    forall o | Available(plan, n, o) ensures SameInput(plan, At(fs, cache), At(fs', cache'), o) {
      NotAvailable(plan, n, o);
      assert SameOutput(fs, fs', o) && SameEntry(cache, cache', o);
    }
  }

  /** A step leaves the earlier providers up to date. */
  lemma StepKeepsUpToDate(plan: seq<Provider>, n: nat, force: bool, fs: Files, fs': Files,
      cache: Cache, cache': Cache, images: Images, images': Images, dirty: seq<Output>, i: nat)
    requires i < n < |plan| && Ordered(plan)
    requires Stepped(plan, n, force, fs, fs', cache, cache', images, images', dirty)
    requires UpToDate(plan, i, fs, cache, images)
    ensures UpToDate(plan, i, fs', cache', images')
  {
    hide Available, DigestFor, BaseFor, SameInputs;
    var w, w' := At(fs, cache), At(fs', cache');
    StepKeepsInputs(plan, n, fs, fs', cache, cache', dirty);
    SameInputsUpTo(plan, n, w, w', i);
    HashesDepend(plan, i, w, w');
    BaseDepends(plan, i, w, w');
    assert Apart(plan[i], plan[n]) && WellFormed(plan, n) && WellFormed(plan, i);
    forall o | o in plan[i].needed ensures DigestFor(plan, i, w, o) == DigestFor(plan, i, w', o)
      ensures SameOutput(fs, fs', o) && SameEntry(cache, cache', o)
    {
      DigestDepends(plan, i, w, w', o);
      assert o !in dirty;
    }
    assert SameImage(cache, cache', images, images', Tag(plan[i]));
  }

  ghost predicate AgreesAt(plan: seq<Provider>, h: Hashes, deps: Hashes, r: Ref) {
    && (r in h ==> r in deps && deps[r] == h[r])
    && (r in deps && r.Image? ==> r in h)
    && (r in deps && r.Artefact? ==> !External(plan, r.output))
  }

  lemma AddAgrees(plan: seq<Provider>, h: Hashes, deps: Hashes, p: Provider, d: Digest, cache: Cache, fs: Files, r: Ref)
    requires AgreesAt(plan, h, deps, r) && p in plan
    requires forall o :: o in p.needed ==> o in p.outputs && Live(o) in fs && o in cache.entries && cache.entries[o].hash == NeededHash(p, d, h, At(fs, cache), o)
    requires r.Artefact? && r.output in p.outputs && r.output !in p.needed ==> r !in h
    ensures AgreesAt(plan, h + TagHashes(p, d) + NeededHashes(p, d, h, At(fs, cache)), Noted(deps + TagHashes(p, d), p.outputs, cache, fs), r)
  {
    hide NeededHash;
    if r.Artefact? {
      assert r == Artefact(r.output);
      if r.output in p.outputs {
        assert !External(plan, r.output);
      }
    }
  }

  lemma {:induction false} NotYetHashed(plan: seq<Provider>, n: nat, w: World, o: Output)
    requires n < |plan| && Ordered(plan) && o in plan[n].outputs
    ensures forall m :: 0 <= m <= n ==> Artefact(o) !in HashesOf(plan, m, w)
  {
    hide InputDigest, NeededHash;
    for m := 0 to n
      invariant forall k :: 0 <= k <= m ==> Artefact(o) !in HashesOf(plan, k, w)
    {
      assert WellFormed(plan, m) && Apart(plan[m], plan[n]);
    }
  }

  /** The hashes at hand after a step are those the specification calls for. */
  lemma StepAgrees(plan: seq<Provider>, n: nat, w: World, fs': Files, deps: Hashes, cache': Cache)
    requires n < |plan| && Ordered(plan) && Agrees(plan, n, w, deps) && SameInputs(plan, n, w, At(fs', cache'))
    requires forall o :: o in plan[n].needed ==> Live(o) in fs' && o in cache'.entries
    requires forall o :: o in plan[n].needed ==>
      cache'.entries[o].hash == NeededHash(plan[n], BaseFor(plan, n, At(fs', cache')), HashesOf(plan, n, At(fs', cache')), At(fs', cache'), o)
    ensures Agrees(plan, n + 1, At(fs', cache'), Noted(deps + TagHashes(plan[n], BaseFor(plan, n, w)), plan[n].outputs, cache', fs'))
  {
    hide SameInputs, InputDigest, HashesOf, NeededHash, External, TagHashes, NeededHashes, Noted;
    var w' := At(fs', cache');
    HashesDepend(plan, n, w, w');
    BaseDepends(plan, n, w, w');
    HashesNext(plan, n, w');
    assert WellFormed(plan, n);
    var p, d, h := plan[n], BaseFor(plan, n, w), HashesOf(plan, n + 1, w');
    var deps' := Noted(deps + TagHashes(p, d), p.outputs, cache', fs');
    forall r: Ref ensures AgreesAt(plan, h, deps', r) {
      if r.Artefact? && r.output in p.outputs {
        NotYetHashed(plan, n, w', r.output);
      }
      AddAgrees(plan, HashesOf(plan, n, w'), deps, p, d, cache', fs', r);
    }
    AllAgree(plan, n + 1, w', deps');
  }

  lemma SteppedAgrees(make: Make, plan: seq<Provider>, n: nat, force: bool, fs: Files, fs': Files, deps: Hashes,
      cache: Cache, cache': Cache, images: Images, images': Images, dirty: seq<Output>)
    requires n < |plan| && Ordered(plan) && Agrees(plan, n, At(fs, cache), deps) && Sound(make, cache') && !Skipped(plan[n])
    requires Stepped(plan, n, force, fs, fs', cache, cache', images, images', dirty)
    ensures Agrees(plan, n + 1, At(fs', cache'), Noted(deps + TagHashes(plan[n], BaseFor(plan, n, At(fs, cache))), plan[n].outputs, cache', fs'))
  {
    hide Agrees, Sound, MadeFrom, BaseFor, OutputDigest, SameInputs, HashesOf, IntactAt;
    var w' := At(fs', cache');
    StepKeepsInputs(plan, n, fs, fs', cache, cache', dirty);
    forall o | o in plan[n].needed
      ensures Live(o) in fs' && o in cache'.entries
      ensures cache'.entries[o].hash == NeededHash(plan[n], BaseFor(plan, n, w'), HashesOf(plan, n, w'), w', o)
    {
      CleanIsMade(make, o, DigestFor(plan, n, w', o), cache', fs');
    }
    StepAgrees(plan, n, At(fs, cache), fs', deps, cache');
  }

  lemma PlanAt(plan: seq<Provider>, n: nat)
    requires n < |plan| && Ordered(plan)
    ensures Distinct(plan[n].needed) && forall o :: o in plan[n].needed ==> o in plan[n].outputs
  {
    assert WellFormed(plan, n);
  }

  lemma SkippedAgrees(plan: seq<Provider>, n: nat, w: World, deps: Hashes)
    requires n < |plan| && Ordered(plan) && Agrees(plan, n, w, deps) && Skipped(plan[n])
    ensures Agrees(plan, n + 1, w, deps)
  {
    hide InputDigest, HashesOf;
    assert WellFormed(plan, n);
    HashesNext(plan, n, w);
    var d := BaseFor(plan, n, w);
    assert TagHashes(plan[n], d) == map[] && NeededHashes(plan[n], d, HashesOf(plan, n, w), w) == map[];
    assert HashesOf(plan, n + 1, w) == HashesOf(plan, n, w) + map[] + map[];
  }

  lemma AllAgree(plan: seq<Provider>, n: nat, w: World, deps: Hashes)
    requires n <= |plan| && forall r: Ref :: AgreesAt(plan, HashesOf(plan, n, w), deps, r)
    ensures Agrees(plan, n, w, deps)
  {
    hide HashesOf, External;
    assert forall r :: r in HashesOf(plan, n, w) ==> AgreesAt(plan, HashesOf(plan, n, w), deps, r);
    assert forall r :: r in deps ==> AgreesAt(plan, HashesOf(plan, n, w), deps, r);
  }

  lemma HashesNext(plan: seq<Provider>, n: nat, w: World)
    requires n < |plan|
    ensures var d := BaseFor(plan, n, w);
      HashesOf(plan, n + 1, w) == HashesOf(plan, n, w) + TagHashes(plan[n], d) + NeededHashes(plan[n], d, HashesOf(plan, n, w), w)
  {
  }

  /** The input hash tells from which inputs the image named by runs_on was built exactly when the
      provider also requires that image: runs_on alone is not followed. */
  lemma HashSeesImage(p: Provider, deps: Hashes, w: World, t: Name, d: Digest, d': Digest)
    requires d != d'
    ensures InputDigest(p, deps[Image(t) := d], w) != InputDigest(p, deps[Image(t) := d'], w) <==> Image(t) in p.refs
  {
    var h, h' := InputDigest(p, deps[Image(t) := d], w), InputDigest(p, deps[Image(t) := d'], w);
    if Image(t) in p.refs {
      assert h.inputs[Image(t)] == Some(d) && h'.inputs[Image(t)] == Some(d');
    } else {
      assert h.inputs == h'.inputs;
    }
  }

  // ---- What gets built ----

  /** The outputs built are exactly those missing, altered since they were recorded, or recorded
      for inputs other than those there are in the end. */
  ghost predicate Rebuilt(plan: seq<Provider>, n: nat, force: bool, fs0: Files, cache0: Cache, w: World, ran: set<Output>)
    requires n <= |plan|
  {
    && (forall i, o :: 0 <= i < n && o in plan[i].needed ==> (o in ran <==> force || IsDirty(o, DigestFor(plan, i, w, o), cache0.entries, fs0)))
    && forall o :: o in ran ==> Provided(plan, n, o)
  }

  ghost predicate Untouched(plan: seq<Provider>, n: nat, fs0: Files, cache0: Cache, fs: Files, cache: Cache)
    requires n <= |plan|
  {
    forall o :: !Provided(plan, n, o) ==> SameOutput(fs0, fs, o) && SameEntry(cache0, cache, o)
  }

  lemma NothingYet(plan: seq<Provider>, force: bool, fs: Files, cache: Cache)
    ensures Agrees(plan, 0, At(fs, cache), map[]) && Untouched(plan, 0, fs, cache, fs, cache)
    ensures Rebuilt(plan, 0, force, fs, cache, At(fs, cache), {})
  {
  }

  lemma StepUntouched(plan: seq<Provider>, n: nat, force: bool, fs0: Files, cache0: Cache, fs: Files, fs': Files,
      cache: Cache, cache': Cache, images: Images, images': Images, dirty: seq<Output>)
    requires n < |plan| && Ordered(plan) && Untouched(plan, n, fs0, cache0, fs, cache)
    requires Stepped(plan, n, force, fs, fs', cache, cache', images, images', dirty)
    ensures Untouched(plan, n + 1, fs0, cache0, fs', cache')
  {
    forall o | !Provided(plan, n + 1, o) ensures SameOutput(fs0, fs', o) && SameEntry(cache0, cache', o) {
      assert !Provided(plan, n, o) && o !in plan[n].needed;
      assert SameOutput(fs, fs', o) && SameEntry(cache, cache', o);
    }
  }

  lemma StepRebuilt(plan: seq<Provider>, n: nat, force: bool, fs0: Files, cache0: Cache, fs: Files, fs': Files,
      cache: Cache, cache': Cache, images: Images, images': Images, dirty: seq<Output>, ran: set<Output>)
    requires n < |plan| && Ordered(plan) && Untouched(plan, n, fs0, cache0, fs, cache)
    requires Stepped(plan, n, force, fs, fs', cache, cache', images, images', dirty)
    requires Rebuilt(plan, n, force, fs0, cache0, At(fs, cache), ran)
    ensures Rebuilt(plan, n + 1, force, fs0, cache0, At(fs', cache'), ran + Elements(dirty))
  {
    hide DigestFor, Available, SameInputs;
    var w, w' := At(fs, cache), At(fs', cache');
    StepKeepsInputs(plan, n, fs, fs', cache, cache', dirty);
    var ran' := ran + Elements(dirty);
    forall i, o | 0 <= i < n + 1 && o in plan[i].needed
      ensures o in ran' <==> force || IsDirty(o, DigestFor(plan, i, w', o), cache0.entries, fs0)
    {
      SameInputsUpTo(plan, n, w, w', i);
      DigestDepends(plan, i, w, w', o);
      if i < n {
        assert Provided(plan, n, o);
        NotAvailable(plan, n, o) by { assert Available(plan, n, o) by { ProvidedIsAvailable(plan, n, o); } }
      } else if Provided(plan, n, o) {
        ProvidedIsAvailable(plan, n, o);
        NotAvailable(plan, n, o);
        assert false;
      } else {
        assert SameOutput(fs0, fs, o) && SameEntry(cache0, cache, o);
      }
    }
    forall o | o in ran' ensures Provided(plan, n + 1, o) {
      if o in dirty {
        assert o in plan[n].needed;
      } else {
        assert Provided(plan, n, o);
      }
    }
  }

  lemma ProvidedIsAvailable(plan: seq<Provider>, n: nat, o: Output)
    requires n <= |plan| && Provided(plan, n, o)
    ensures Available(plan, n, o)
  {
  }

  function Elements(s: seq<Output>): set<Output> {
    set o | o in s
  }

  // ---- The right image, the right outputs ----

  /** The image named by runs_on, if the input hash records it, is the one recorded. */
  lemma RightImage(make: Make, plan: seq<Provider>, n: nat, fs: Files, cache: Cache, images: Images, d: Digest)
    requires n < |plan| && Ordered(plan) && Sound(make, cache) && AllUpToDate(plan, n, fs, cache, images)
    requires plan[n].description.runsOn.Some? && Shows(BaseFor(plan, n, At(fs, cache)), plan[n].description.runsOn.value, d)
    ensures var t := plan[n].description.runsOn.value;
      t in images && t != Tag(plan[n]) && d == images[t].inputs
  {
    hide HashesOf, IsDirty, Shows;
    var k := ShownIsSeen(plan, n, At(fs, cache), plan[n].description.runsOn.value, d);
    assert UpToDate(plan, k, fs, cache, images) && Apart(plan[k], plan[n]);
  }

  lemma ProvidedAreThere(plan: seq<Provider>, n: nat, fs: Files, cache: Cache, images: Images, o: Output)
    requires n <= |plan| && Ordered(plan) && AllUpToDate(plan, n, fs, cache, images) && Provided(plan, n, o)
    ensures Live(o) in fs
  {
    var i :| 0 <= i < n && o in plan[i].needed;
    assert WellFormed(plan, i) && UpToDate(plan, i, fs, cache, images);
    assert !IsDirty(o, DigestFor(plan, i, At(fs, cache), o), cache.entries, fs);
  }

  /** After the dirty outputs are made and recorded, the provider is up to date. */
  lemma MadeIsUpToDate(make: Make, plan: seq<Provider>, n: nat, fs: Files, fs': Files, cache: Cache, images: Images, image: ImageId, dirty: seq<Output>)
    requires n < |plan| && Ordered(plan) && Buildable(plan[n]) && Sound(make, cache) && OutputsAgree(plan, n, At(fs, cache))
    requires plan[n].description.dockerfile ==> Current(cache, images, Tag(plan[n]), BaseFor(plan, n, At(fs, cache)))
    requires ReadsOthers(plan[n], dirty) && Produced(make, plan[n], BaseFor(plan, n, At(fs, cache)), At(fs, cache), fs', image, dirty)
    requires CallsFor(BaseFor(plan, n, At(fs, cache)), image.inputs)
    requires forall o :: o in dirty ==> o in plan[n].needed
    requires forall o :: o in plan[n].needed && o !in dirty ==> !IsDirty(o, DigestFor(plan, n, At(fs, cache), o), cache.entries, fs)
    ensures var cache' := Recorded(cache, plan[n], BaseFor(plan, n, At(fs, cache)), fs', dirty);
      Sound(make, cache') && UpToDate(plan, n, fs', cache', images) && (Intact(make, At(fs, cache)) ==> Intact(make, At(fs', cache')))
  {
    hide HashesOf, CallsFor, Sound, OutputDigest, Intact, EntryFor, ProducedAt, SameInputs;
    var p, w := plan[n], At(fs, cache);
    var base := BaseFor(plan, n, w);
    AllThere(make, p, base, w, fs', image, dirty);
    var cache' := Recorded(cache, p, base, fs', dirty);
    var w' := At(fs', cache');
    StepKeepsInputs(plan, n, fs, fs', cache, cache', dirty);
    HashesDepend(plan, n, w, w');
    BaseDepends(plan, n, w, w');
    RecordedIsSound(make, cache, p, base, fs, fs', image, dirty);
    forall o | o in p.needed ensures !IsDirty(o, DigestFor(plan, n, w', o), cache'.entries, fs') {
      DigestDepends(plan, n, w, w', o);
      if o !in dirty {
        assert SameOutput(fs, fs', o);
      }
    }
  }

  /** A step that finds nothing dirty. */
  lemma CleanStep(plan: seq<Provider>, n: nat, force: bool, fs: Files, cache: Cache, cache': Cache, images: Images, images': Images)
    requires n < |plan| && Ordered(plan) && cache'.entries == cache.entries
    requires forall t :: t != Tag(plan[n]) ==> SameImage(cache, cache', images, images', t)
    requires Skipped(plan[n]) || Buildable(plan[n])
    requires !Skipped(plan[n]) && plan[n].description.dockerfile ==> Current(cache', images', Tag(plan[n]), BaseFor(plan, n, At(fs, cache)))
    requires forall o :: o in plan[n].needed ==> !force && !IsDirty(o, DigestFor(plan, n, At(fs, cache), o), cache.entries, fs)
    ensures Stepped(plan, n, force, fs, fs, cache, cache', images, images', [])
  {
    hide BaseFor, DigestFor, Current, SameImage;
    assert WellFormed(plan, n);
  }

  /** A step that makes and records what is dirty. */
  lemma DirtyStep(make: Make, plan: seq<Provider>, n: nat, force: bool, fs: Files, fs': Files,
      cache: Cache, cache1: Cache, images: Images, images': Images, image: ImageId, dirty: seq<Output>)
    requires n < |plan| && Ordered(plan) && cache1.entries == cache.entries && Sound(make, cache1)
    requires forall t :: t != Tag(plan[n]) ==> SameImage(cache, cache1, images, images', t)
    requires Buildable(plan[n]) && CallsFor(BaseFor(plan, n, At(fs, cache)), image.inputs)
    requires plan[n].description.dockerfile ==> Current(cache1, images', Tag(plan[n]), BaseFor(plan, n, At(fs, cache)))
    requires forall o :: o in dirty <==> o in plan[n].needed && (force || IsDirty(o, DigestFor(plan, n, At(fs, cache), o), cache.entries, fs))
    requires Produced(make, plan[n], BaseFor(plan, n, At(fs, cache)), At(fs, cache), fs', image, dirty) && OutputsAgree(plan, n, At(fs, cache))
    ensures var cache' := Recorded(cache1, plan[n], BaseFor(plan, n, At(fs, cache)), fs', dirty);
      && Sound(make, cache') && Stepped(plan, n, force, fs, fs', cache, cache', images, images', dirty)
      && (Intact(make, At(fs, cache)) ==> Intact(make, At(fs', cache')))
  {
    hide BaseFor, DigestFor, CallsFor, Sound, EntryFor, Current, UpToDate, Ordered, IsDirty;
    NeededReadOthers(plan, n, dirty);
    MadeIsUpToDate(make, plan, n, fs, fs', cache1, images', image, dirty);
    var cache' := Recorded(cache1, plan[n], BaseFor(plan, n, At(fs, cache)), fs', dirty);
    forall t | t != Tag(plan[n]) ensures SameImage(cache, cache', images, images', t) {
      assert SameImage(cache, cache1, images, images', t);
    }
  }

  /** The container of a provider runs in the image that its input hash calls for. */
  lemma ImageToRun(make: Make, plan: seq<Provider>, n: nat, fs: Files, cache: Cache, cache': Cache, images: Images, images': Images)
    requires n < |plan| && Ordered(plan) && Sound(make, cache) && Sound(make, cache') && AllUpToDate(plan, n, fs, cache, images)
    requires Buildable(plan[n]) && plan[n].outputs != {}
    requires plan[n].description.dockerfile ==> Current(cache', images', Tag(plan[n]), BaseFor(plan, n, At(fs, cache)))
    requires forall t :: t != Tag(plan[n]) ==> SameImage(cache, cache', images, images', t)
    ensures RunTag(plan[n]) in images' ==> CallsFor(BaseFor(plan, n, At(fs, cache)), images'[RunTag(plan[n])].inputs)
  {
    hide AllUpToDate, HashesOf, Shows;
    var base, on := BaseFor(plan, n, At(fs, cache)), plan[n].description.runsOn;
    forall d | RunsIn(base, d) && RunTag(plan[n]) in images' ensures d == images'[RunTag(plan[n])].inputs {
      if on.Some? {
        RightImage(make, plan, n, fs, cache, images, d);
        assert SameImage(cache, cache', images, images', RunTag(plan[n]));
      }
    }
  }

  lemma NeededReadOthers(plan: seq<Provider>, n: nat, outputs: seq<Output>)
    requires n < |plan| && Ordered(plan) && forall o :: o in outputs ==> o in plan[n].needed
    ensures ReadsOthers(plan[n], outputs)
  {
    assert WellFormed(plan, n);
    forall o, r | o in outputs && r in Extra(plan[n], o) ensures r !in outputs {
      NotAvailable(plan, n, r);
    }
  }

  // ---- What any run leaves, failed or not ----

  ghost predicate NoBackups(fs: Files) {
    forall o :: Backup(o) !in fs
  }

  /** Recorded directories stay as made, and no backup is left: through every success, and through a
      failure, if there was no backup before. */
  ghost predicate Left(make: Make, ok: bool, fs: Files, cache: Cache, fs': Files, cache': Cache) {
    && (Intact(make, At(fs, cache)) && (ok || NoBackups(fs)) ==> Intact(make, At(fs', cache')))
    && (NoBackups(fs) ==> NoBackups(fs'))
  }

  lemma NothingLeft(make: Make, fs: Files, cache: Cache)
    ensures forall cache': Cache, ok :: cache'.entries == cache.entries ==> Left(make, ok, fs, cache, fs, cache')
  {
    hide Intact, NoBackups;
  }

  lemma LeftTwice(make: Make, ok: bool, fs: Files, cache: Cache, fs1: Files, cache1: Cache, fs2: Files, cache2: Cache)
    requires Left(make, true, fs, cache, fs1, cache1) && Left(make, ok, fs1, cache1, fs2, cache2)
    ensures Left(make, ok, fs, cache, fs2, cache2)
  {
    hide Intact, NoBackups;
  }

  lemma IntactLeft(make: Make, fs: Files, cache: Cache, fs': Files, cache': Cache)
    requires Left(make, true, fs, cache, fs', cache')
    ensures Intact(make, At(fs, cache)) ==> Intact(make, At(fs', cache'))
  {
    hide Intact, NoBackups;
  }

  lemma FailedLeaves(make: Make, fs: Files, cache: Cache, fs': Files, cache': Cache)
    requires cache'.entries == cache.entries && (NoBackups(fs) ==> fs' == fs)
    ensures Left(make, false, fs, cache, fs', cache')
  {
    hide Intact, NoBackups;
  }

  lemma ProducedLeaves(make: Make, p: Provider, base: Digest, fs: Files, fs': Files, cache: Cache, cache': Cache, image: ImageId, outputs: seq<Output>)
    requires Produced(make, p, base, At(fs, cache), fs', image, outputs)
    requires Intact(make, At(fs, cache)) ==> Intact(make, At(fs', cache'))
    ensures Left(make, true, fs, cache, fs', cache')
  {
    hide Intact, Holds, OutputDigest;
    if NoBackups(fs) {
      forall o ensures Backup(o) !in fs' {
        if o in outputs { assert ProducedAt(make, p, base, At(fs, cache), fs', image, o); } else { assert SameOutput(fs, fs', o); }
      }
    }
  }

  /** The outputs found dirty with the hashes computed are those that are. */
  lemma DirtyAgree(plan: seq<Provider>, n: nat, force: bool, fs: Files, cache: Cache, dirty: seq<Output>)
    requires n < |plan| && OutputsAgree(plan, n, At(fs, cache))
    requires forall o :: o in dirty <==>
      o in plan[n].needed && (force || IsDirty(o, OutputDigest(plan[n], BaseFor(plan, n, At(fs, cache)), map[], At(fs, cache), o), cache.entries, fs))
    ensures forall o :: o in dirty <==> o in plan[n].needed && (force || IsDirty(o, DigestFor(plan, n, At(fs, cache), o), cache.entries, fs))
  {
    hide BaseFor, OutputDigest, IsDirty, HashesOf;
  }

  // ---- The code ----

  class Engine {
    const make: Make
    const disk: FileSystem
    var images: Images
    var saved: Cache
    /** Every cache ever written to disk: the one an interrupted run leaves behind is among them. */
    ghost var saves: seq<Cache>

    ghost predicate Valid()
      reads this`saved, this`saves
    {
      saves != [] && saves[|saves| - 1] == saved && forall k :: 0 <= k < |saves| ==> Sound(make, saves[k])
    }

    constructor (make: Make, disk: FileSystem)
      ensures Valid() && this.make == make && this.disk == disk
    {
      this.make, this.disk := make, disk;
      images, saved := map[], Cache(map[], map[]);
      saves := [Cache(map[], map[])];
    }

    method Save(cache: Cache)
      requires Valid() && Sound(make, cache)
      modifies this`saved, this`saves
      ensures Valid() && saved == cache
    {
      saved := cache;
      saves := saves + [cache];
    }

    method EnsureImage(p: Provider, d: Digest, force: bool, out: Outcome, cache: Cache) returns (ok: bool, cache': Cache)
      requires Valid() && cache == saved
      modifies this`images, this`saved, this`saves
      ensures Valid() && cache' == saved && cache'.entries == cache.entries
      ensures ok ==> Current(cache', images, Tag(p), d)
      ensures forall t :: t != Tag(p) ==> SameImage(cache, cache', old(images), images, t)
      ensures !force && old(Current(cache, images, Tag(p), d)) ==> ok && cache' == cache && images == old(images)
    {
      var t := Tag(p);
      cache' := cache;
      if !force && t in images && (t, images[t]) in cache.images && cache.images[(t, images[t])] == d {
        return true, cache;
      }
      if !out.imageBuilt {
        return false, cache;
      }
      var image := ImageId(d, out.serial);
      images := images[t := image];
      cache' := cache.(images := cache.images[(t, image) := d]);
      Save(cache');
      ok := true;
    }

    /** Run the container for some outputs, in a transaction, and record what it made. */
    method MakeOutputs(p: Provider, base: Digest, tag: Name, outputs: seq<Output>, out: Outcome, cache: Cache)
      returns (ok: bool, cache': Cache)
      requires Distinct(outputs) && ReadsOthers(p, outputs)
      modifies disk
      ensures ok ==> tag in images && Produced(make, p, base, At(old(disk.files), cache), disk.files, images[tag], outputs)
      ensures ok ==> cache' == Recorded(cache, p, base, disk.files, outputs)
      ensures !ok ==> cache' == cache && (NoBackups(old(disk.files)) ==> disk.files == old(disk.files))
    {
      hide OutputDigest, BeginAll, FinishAll, Built, Saved, Written, Recorded, Produced;
      cache' := cache;
      var backups := disk.Begin(outputs);
      ok := out.ran && tag in images;
      var writes := if ok then Written(make, p, base, At(disk.files, cache), images[tag], outputs, out) else out.junk;
      disk.files := Built(disk.files, outputs, writes);
      if !ok || exists o :: o in outputs && Live(o) !in disk.files {
        disk.Finish(outputs, backups, false);
        if NoBackups(old(disk.files)) { FailedRestores(old(disk.files), outputs, writes); }
        return false, cache;
      }
      disk.Finish(outputs, backups, true);
      AttemptProduces(make, p, base, old(disk.files), cache, images[tag], outputs, out);
      AllThere(make, p, base, At(old(disk.files), cache), disk.files, images[tag], outputs);
      cache' := Record(p, base, outputs, cache);
    }

    method Record(p: Provider, base: Digest, outputs: seq<Output>, cache: Cache) returns (cache': Cache)
      requires ReadsOthers(p, outputs) && forall o :: o in outputs ==> Live(o) in disk.files
      ensures cache' == Recorded(cache, p, base, disk.files, outputs)
    {
      hide EntryFor;
      cache' := cache;
      for i := 0 to |outputs|
        invariant cache' == Recorded(cache, p, base, disk.files, outputs[..i])
      {
        assert outputs[..i + 1] == outputs[..i] + [outputs[i]];
        assert outputs[i] in outputs && forall r :: r in Extra(p, outputs[i]) ==> r !in outputs;
        RecordNext(cache, p, base, disk.files, outputs[..i], outputs[i]);
        cache' := cache'.(entries := cache'.entries[outputs[i] := EntryFor(p, base, At(disk.files, cache'), outputs[i])]);
      }
      assert outputs[..|outputs|] == outputs;
    }

    method DirtyOutputs(p: Provider, base: Digest, force: bool, cache: Cache) returns (dirty: seq<Output>)
      requires Distinct(p.needed)
      ensures Distinct(dirty)
      ensures forall o :: o in dirty <==> o in p.needed && (force || IsDirty(o, OutputDigest(p, base, map[], At(disk.files, cache), o), cache.entries, disk.files))
    {
      hide IsDirty, OutputDigest;
      var w := At(disk.files, cache);
      dirty := [];
      for i := 0 to |p.needed|
        invariant Distinct(dirty)
        invariant forall o :: o in dirty <==> o in p.needed[..i] && (force || IsDirty(o, OutputDigest(p, base, map[], w, o), cache.entries, disk.files))
      {
        var o := p.needed[i];
        assert p.needed[..i + 1] == p.needed[..i] + [o] && o !in p.needed[..i];
        if force || IsDirty(o, OutputDigest(p, base, map[], w, o), cache.entries, disk.files) {
          dirty := dirty + [o];
        }
      }
      assert p.needed[..|p.needed|] == p.needed;
    }

    /** Make the needed outputs that are dirty, the image being current. */
    method BuildDirty(plan: seq<Provider>, n: nat, force: bool, out: Outcome, base: Digest, cache: Cache, ghost before: Cache, ghost were: Images)
      returns (ok: bool, cache': Cache, dirty: seq<Output>)
      requires n < |plan| && Ordered(plan) && Valid() && cache == saved && before.entries == cache.entries && Sound(make, before)
      requires base == BaseFor(plan, n, At(disk.files, cache)) && OutputsAgree(plan, n, At(disk.files, cache))
      requires !Skipped(plan[n]) && Buildable(plan[n]) && AllUpToDate(plan, n, disk.files, before, were)
      requires plan[n].description.dockerfile ==> Current(cache, images, Tag(plan[n]), base)
      requires forall t :: t != Tag(plan[n]) ==> SameImage(before, cache, were, images, t)
      modifies this`saved, this`saves, disk
      ensures Valid()
      ensures ok ==> cache' == saved && Stepped(plan, n, force, old(disk.files), disk.files, before, cache', were, images, dirty)
      ensures Left(make, ok, old(disk.files), before, disk.files, saved)
      ensures !force && old(UpToDate(plan, n, disk.files, before, were)) ==> ok && dirty == [] && disk.files == old(disk.files) && cache' == cache
    {
      hide AllUpToDate, IsDirty, BaseFor, OutputDigest, HashesOf, InputDigest, Produced, Recorded, CallsFor, SameImage, Stepped, Current, Available, Sound, Ordered, RunTag, Left, OutputsAgree;
      var p := plan[n];
      cache' := cache;
      ghost var fs := disk.files;
      NothingLeft(make, fs, before);
      PlanAt(plan, n);
      dirty := DirtyOutputs(p, base, force, cache);
      DirtyAgree(plan, n, force, fs, cache, dirty);
      if dirty == [] {
        CleanStep(plan, n, force, fs, before, cache, were, images);
        return true, cache, [];
      }
      assert dirty[0] in dirty;
      NeededReadOthers(plan, n, dirty);
      ImageToRun(make, plan, n, fs, before, cache, were, images);
      ok, cache' := MakeOutputs(p, base, RunTag(p), dirty, out, cache);
      if !ok {
        FailedLeaves(make, fs, before, disk.files, saved);
        return;
      }
      DirtyStep(make, plan, n, force, fs, disk.files, before, cache, were, images, images[RunTag(p)], dirty);
      ProducedLeaves(make, p, base, fs, disk.files, before, cache', images[RunTag(p)], dirty);
      Save(cache');
    }

    /** One provider's turn: its image, its dirty outputs, and the hashes for those after it. */
    method Provide(plan: seq<Provider>, n: nat, force: bool, out: Outcome, deps: Hashes, cache: Cache)
      returns (ok: bool, deps': Hashes, cache': Cache, dirty: seq<Output>)
      requires n < |plan| && Ordered(plan) && Valid() && cache == saved
      requires Agrees(plan, n, At(disk.files, cache), deps) && AllUpToDate(plan, n, disk.files, cache, images)
      modifies this`images, this`saved, this`saves, disk
      ensures Valid()
      ensures ok ==> cache' == saved
      ensures ok ==> Stepped(plan, n, force, old(disk.files), disk.files, cache, cache', old(images), images, dirty)
      ensures ok ==> Agrees(plan, n + 1, At(disk.files, cache'), deps')
      ensures Left(make, ok, old(disk.files), cache, disk.files, saved)
      ensures !force && old(UpToDate(plan, n, disk.files, cache, images)) ==>
        ok && dirty == [] && disk.files == old(disk.files) && cache' == cache && images == old(images)
    {
      hide Agrees, AllUpToDate, IsDirty, BaseFor, OutputDigest, HashesOf, Noted, InputDigest, Produced, Recorded, CallsFor, SameImage, Stepped, Current, Available, Sound, TagHashes, Available, Ordered, RunTag, Left, OutputsAgree;
      var p := plan[n];
      deps', cache', dirty := deps, cache, [];
      ghost var fs := disk.files;
      NothingLeft(make, fs, cache);
      PlanAt(plan, n);
      SameImageSelf(cache, images);
      if Skipped(p) {
        ok := true;
        CleanStep(plan, n, force, fs, cache, cache', old(images), images);
        SkippedAgrees(plan, n, At(fs, cache), deps);
        return;
      }
      forall o | Provided(plan, n, o) ensures Live(o) in fs { ProvidedAreThere(plan, n, fs, cache, images, o); }
      AgreedBase(plan, n, At(fs, cache), deps);
      AgreedOutputs(make, plan, n, fs, cache, images);
      var base := InputDigest(p, deps, At(disk.files, cache));
      deps' := deps + TagHashes(p, base);
      if !Buildable(p) {
        return false, deps', cache, [];
      }
      if p.description.dockerfile {
        ok, cache' := EnsureImage(p, base, force, out, cache);
        if !ok {
          return;
        }
      }
      ok, cache', dirty := BuildDirty(plan, n, force, out, base, cache', cache, old(images));
      if !ok {
        return;
      }
      SteppedAgrees(make, plan, n, force, fs, disk.files, deps, cache, cache', old(images), images, dirty);
      deps' := Noted(deps', p.outputs, cache', disk.files);
      ok := true;
    }

    /** Build the providers in order, stopping at the first failure. */
    method Run(plan: seq<Provider>, force: bool, outs: seq<Outcome>) returns (ok: bool, ran: set<Output>)
      requires Ordered(plan) && |outs| == |plan| && Valid()
      modifies this`images, this`saved, this`saves, disk
      ensures Valid()
      ensures ok && old(Intact(make, At(disk.files, saved))) ==> Consistent(make, plan, |plan|, At(disk.files, saved))
      ensures ok ==> AllUpToDate(plan, |plan|, disk.files, saved, images)
      ensures ok ==> Rebuilt(plan, |plan|, force, old(disk.files), old(saved), At(disk.files, saved), ran)
      ensures ok ==> Untouched(plan, |plan|, old(disk.files), old(saved), disk.files, saved)
      ensures Left(make, ok, old(disk.files), old(saved), disk.files, saved)
      ensures !force && old(AllUpToDate(plan, |plan|, disk.files, saved, images)) ==>
        ok && ran == {} && disk.files == old(disk.files) && images == old(images) && saved == old(saved)
    {
      hide UpToDate, Agrees, Rebuilt, Untouched, Stepped, Ordered, Left, Intact;
      var cache, deps := saved, map[];
      ran := {};
      NothingYet(plan, force, disk.files, cache);
      NothingLeft(make, disk.files, cache);
      for n := 0 to |plan|
        invariant Valid() && cache == saved
        invariant Agrees(plan, n, At(disk.files, cache), deps)
        invariant AllUpToDate(plan, n, disk.files, cache, images)
        invariant Untouched(plan, n, old(disk.files), old(saved), disk.files, cache)
        invariant Rebuilt(plan, n, force, old(disk.files), old(saved), At(disk.files, cache), ran)
        invariant Left(make, true, old(disk.files), old(saved), disk.files, cache)
        invariant !force && old(AllUpToDate(plan, |plan|, disk.files, saved, images)) ==>
          ran == {} && disk.files == old(disk.files) && images == old(images) && cache == old(saved)
      {
        ghost var fs, cache0, images0 := disk.files, cache, images;
        var dirty;
        ok, deps, cache, dirty := Provide(plan, n, force, outs[n], deps, cache);
        LeftTwice(make, ok, old(disk.files), old(saved), fs, cache0, disk.files, saved);
        if !ok {
          return;
        }
        forall i | 0 <= i < n ensures UpToDate(plan, i, disk.files, cache, images) {
          StepKeepsUpToDate(plan, n, force, fs, disk.files, cache0, cache, images0, images, dirty, i);
        }
        SteppedUpToDate(plan, n, force, fs, disk.files, cache0, cache, images0, images, dirty);
        StepRebuilt(plan, n, force, old(disk.files), old(saved), fs, disk.files, cache0, cache, images0, images, dirty, ran);
        StepUntouched(plan, n, force, old(disk.files), old(saved), fs, disk.files, cache0, cache, images0, images, dirty);
        ran := ran + Elements(dirty);
      }
      IntactLeft(make, old(disk.files), old(saved), disk.files, cache);
      if Intact(make, At(disk.files, cache)) {
        UpToDateIsConsistent(make, plan, |plan|, disk.files, cache, images);
      }
      ok := true;
    }
  }

  lemma SteppedUpToDate(plan: seq<Provider>, n: nat, force: bool, fs: Files, fs': Files,
      cache: Cache, cache': Cache, images: Images, images': Images, dirty: seq<Output>)
    requires n < |plan| && Stepped(plan, n, force, fs, fs', cache, cache', images, images', dirty)
    ensures UpToDate(plan, n, fs', cache', images')
  {
  }

  /** A transaction around a container that succeeds, and makes everything, puts its outputs in
      place and leaves the rest. */
  lemma AttemptProduces(make: Make, p: Provider, base: Digest, fs: Files, cache: Cache, image: ImageId, outputs: seq<Output>, out: Outcome)
    requires Distinct(outputs) && ReadsOthers(p, outputs)
    requires var writes := Written(make, p, base, At(Begun(fs, outputs), cache), image, outputs, out);
      forall o :: o in outputs ==> Live(o) in Built(Begun(fs, outputs), outputs, writes)
    ensures var writes := Written(make, p, base, At(Begun(fs, outputs), cache), image, outputs, out);
      Produced(make, p, base, At(fs, cache), After(fs, Succeeded(outputs, writes)), image, outputs)
  {
    hide After, OutputDigest, Begun, Built, Written, ProducedAt;
    var writes := Written(make, p, base, At(Begun(fs, outputs), cache), image, outputs, out);
    var fs' := After(fs, Succeeded(outputs, writes));
    forall o | o in outputs ensures ProducedAt(make, p, base, At(fs, cache), fs', image, o) {
      OneProduced(make, p, base, fs, cache, image, outputs, out, o);
    }
    forall o | o !in outputs ensures SameOutput(fs, fs', o) {
      SucceededLeaves(fs, outputs, writes, o);
    }
  }

  lemma OneProduced(make: Make, p: Provider, base: Digest, fs: Files, cache: Cache, image: ImageId, outputs: seq<Output>, out: Outcome, o: Output)
    requires Distinct(outputs) && ReadsOthers(p, outputs) && o in outputs
    requires Live(o) in Built(Begun(fs, outputs), outputs, Written(make, p, base, At(Begun(fs, outputs), cache), image, outputs, out))
    ensures var writes := Written(make, p, base, At(Begun(fs, outputs), cache), image, outputs, out);
      ProducedAt(make, p, base, At(fs, cache), After(fs, Succeeded(outputs, writes)), image, o)
  {
    hide After, OutputDigest, Begun;
    var w, begun := At(fs, cache), At(Begun(fs, outputs), cache);
    forall q | q !in outputs ensures SameOutput(fs, Begun(fs, outputs), q) {
      BeginLeaves(fs, outputs, q);
    }
    PathsKept(w, begun, outputs);
    BeginClears(fs, outputs, o);
    DigestsKeep(p, base, w, begun, outputs, o);
    SucceededCommits(fs, outputs, Written(make, p, base, begun, image, outputs, out), o);
  }

  lemma BeginLeaves(fs: Files, outputs: seq<Output>, o: Output)
    requires Distinct(outputs) && o !in outputs
    ensures SameOutput(fs, Begun(fs, outputs), o)
  {
    hide BeginAll;
    BeginEffect(fs, outputs, o);
  }

  lemma BeginClears(fs: Files, outputs: seq<Output>, o: Output)
    requires Distinct(outputs) && o in outputs
    ensures Live(o) !in Begun(fs, outputs)
  {
    hide BeginAll;
    BeginEffect(fs, outputs, o);
  }

  lemma SucceededLeaves(fs: Files, outputs: seq<Output>, writes: Files, o: Output)
    requires Distinct(outputs) && o !in outputs
    ensures SameOutput(fs, After(fs, Succeeded(outputs, writes)), o)
  {
    hide BeginAll, FinishAll, Saved;
    BeginEffect(fs, outputs, o);
    FinishEffect(Built(Begun(fs, outputs), outputs, writes), outputs, Saved(fs, outputs), true, o);
  }
}
