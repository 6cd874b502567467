/** Input hashes, what a finished build is, and when an output counts as dirty. */
module BuildCache {
  import opened Wrappers
  import opened OutputIndex
  import opened Transactions
  import opened Sequences

  /** What a provider can require: a container image by tag, or a file of the build directory. */
  datatype Ref = Image(tag: Name) | Artefact(output: Output)

  /** All that identifies a provider but its requirements: its directory, metadata and target
      context, of which the model looks into two fields. */
  datatype Description = Description(sources: int, dockerfile: bool, runsOn: Option<Name>)

  /** A hash stands for the value hashed: equal hashes come from equal values. */
  datatype Digest =
    | OfBytes(bytes: seq<int>)
    | OfTree(bytes: seq<int>)
    | OfInputs(description: Description, tags: seq<Name>, inputs: map<Ref, Option<Digest>>, mounts: map<Output, Option<Digest>>)
    | OfOutput(base: Digest, more: map<Output, Option<Digest>>)

  /** A node of the graph, with those of its outputs that are needed. What its image build mounts
      is also among what it requires. */
  datatype Provider = Provider(
    description: Description, refs: set<Ref>, mounts: set<Output>, tags: seq<Name>, localTag: Name,
    outputs: set<Output>, needed: seq<Output>, extra: map<Output, set<Output>>)

  /** What a builder makes of an output: a file or a directory. */
  datatype Product = FileOf(bytes: seq<int>) | TreeOf(bytes: seq<int>)

  /** Builders are deterministic: an output is a function of its inputs and of the image run. */
  type Make = (Output, Digest, Digest) -> Product

  predicate Holds(c: Content, made: Product) {
    match made
    case FileOf(bytes) => c.File? && c.bytes == bytes
    case TreeOf(bytes) => c == Folder(bytes)
  }

  type Hashes = map<Ref, Digest>

  // ---- What the cache records ----

  /** A modification time and size stand for the content: the shortcut is taken to be sound. */
  datatype Stamp = Stamp(mtime: int, content: seq<int>)

  datatype Kind = Regular(stamp: Stamp) | Directory

  datatype Entry = Entry(inputs: Digest, hash: Digest, kind: Kind)

  /** The build directory as the hashing sees it. */
  datatype World = World(files: Files, entries: map<Output, Entry>)

  // ---- Hashing ----

  function ContentDigest(c: Content): Digest {
    match c
    case File(bytes, _) => OfBytes(bytes)
    case Folder(bytes) => OfTree(bytes)
    case Partial => OfTree([])
  }

  function FileDigest(fs: Files, o: Output): Option<Digest> {
    if Live(o) in fs then Some(ContentDigest(fs[Live(o)])) else None
  }

  /** The hash of a path: of its content, but the one recorded for a directory that was built. */
  function PathDigest(w: World, o: Output): Option<Digest> {
    if Live(o) in w.files && !w.files[Live(o)].File? && o in w.entries && w.entries[o].kind.Directory? then Some(w.entries[o].hash)
    else FileDigest(w.files, o)
  }

  function RefDigest(deps: Hashes, w: World, r: Ref): Option<Digest> {
    if r in deps then Some(deps[r]) else if r.Artefact? then PathDigest(w, r.output) else None
  }

  function InputDigest(p: Provider, deps: Hashes, w: World): Digest {
    OfInputs(p.description, p.tags, map r | r in p.refs :: RefDigest(deps, w, r), map o | o in p.mounts :: FileDigest(w.files, o))
  }

  function Extra(p: Provider, o: Output): set<Output> {
    if o in p.extra then p.extra[o] else {}
  }

  function OutputDigest(p: Provider, base: Digest, deps: Hashes, w: World, o: Output): Digest {
    if Extra(p, o) == {} then base else OfOutput(base, map r | r in Extra(p, o) :: RefDigest(deps, w, Artefact(r)))
  }

  function Base(d: Digest): Digest {
    if d.OfOutput? then d.base else d
  }

  /** d is the input hash of a provider whose image is called t: the first tag is the one built. */
  ghost predicate Builds(d: Digest, t: Name) {
    d.OfInputs? && d.tags != [] && d.tags[0] == t
  }

  /** Among the inputs, or the inputs of an image among them, is the image t, built from d. */
  ghost predicate Shows(base: Digest, t: Name, d: Digest)
    decreases base
  {
    base.OfInputs? && exists r :: r in base.inputs && ShownBy(base.inputs[r], base, r, t, d)
  }

  ghost predicate ShownBy(input: Option<Digest>, base: Digest, r: Ref, t: Name, d: Digest)
    requires base.OfInputs? && r in base.inputs && base.inputs[r] == input
    decreases base, 0
  {
    r.Image? && input.Some? && ((input.value == d && Builds(d, t)) || Shows(input.value, t, d))
  }

  /** The image a provider runs in was built from d, as far as its input hash tells. */
  ghost predicate RunsIn(base: Digest, d: Digest) {
    && base.OfInputs?
    && if base.description.runsOn.None? then d == base else Shows(base, base.description.runsOn.value, d)
  }

  // ---- A finished build, without cache, order of work or history ----

  /** The hashes h, with those of what p provides: a file counts by its content, a directory by what
      it was made from. */
  ghost function Extended(h: Hashes, p: Provider, w: World): Hashes {
    h + TagHashes(p, InputDigest(p, h, w)) + NeededHashes(p, InputDigest(p, h, w), h, w)
  }

  function TagHashes(p: Provider, d: Digest): Hashes {
    map t | t in p.tags :: Image(t) := d
  }

  ghost function NeededHashes(p: Provider, d: Digest, h: Hashes, w: World): Hashes {
    map o | o in p.needed && Live(o) in w.files :: Artefact(o) := NeededHash(p, d, h, w, o)
  }

  function NeededHash(p: Provider, d: Digest, h: Hashes, w: World, o: Output): Digest
    requires Live(o) in w.files
  {
    if w.files[Live(o)].File? then ContentDigest(w.files[Live(o)]) else OutputDigest(p, d, h, w, o)
  }

  /** The hashes of everything provided by the first n providers, from the files alone, and what is
      recorded of directories that none provides. */
  ghost function HashesOf(plan: seq<Provider>, n: nat, w: World): Hashes
    requires n <= |plan|
  {
    if n == 0 then map[] else Extended(HashesOf(plan, n - 1, w), plan[n - 1], w)
  }

  ghost function BaseFor(plan: seq<Provider>, i: nat, w: World): Digest
    requires i < |plan|
  {
    InputDigest(plan[i], HashesOf(plan, i, w), w)
  }

  ghost function DigestFor(plan: seq<Provider>, i: nat, w: World, o: Output): Digest
    requires i < |plan|
  {
    OutputDigest(plan[i], BaseFor(plan, i, w), HashesOf(plan, i, w), w, o)
  }

  /** The output o is what its builder makes of the inputs d, in the image they call for. */
  ghost predicate MadeFrom(make: Make, fs: Files, o: Output, d: Digest) {
    Live(o) in fs && forall image :: RunsIn(Base(d), image) ==> Holds(fs[Live(o)], make(o, d, image))
  }

  /** Every needed output is what its builder makes of the inputs that are there. */
  ghost predicate Consistent(make: Make, plan: seq<Provider>, n: nat, w: World)
    requires n <= |plan|
  {
    forall i, o :: 0 <= i < n && o in plan[i].needed ==> MadeFrom(make, w.files, o, DigestFor(plan, i, w, o))
  }

  // ---- Plans ----

  ghost predicate Provided(plan: seq<Provider>, n: nat, o: Output)
    requires n <= |plan|
  {
    exists i :: 0 <= i < n && o in plan[i].needed
  }

  ghost predicate External(plan: seq<Provider>, o: Output) {
    forall i :: 0 <= i < |plan| ==> o !in plan[i].outputs
  }

  /** o can be an input of provider i: needed from an earlier provider, or no provider's. */
  ghost predicate Available(plan: seq<Provider>, i: nat, o: Output)
    requires i <= |plan|
  {
    Provided(plan, i, o) || External(plan, o)
  }

  function Tag(p: Provider): Name {
    if p.tags != [] then p.tags[0] else p.localTag
  }

  ghost predicate Apart(p: Provider, q: Provider) {
    && p.outputs !! q.outputs && Tag(p) != Tag(q)
    && (forall t :: t in p.tags ==> t !in q.tags)
  }

  ghost predicate WellFormed(plan: seq<Provider>, i: nat)
    requires i < |plan|
  {
    var p := plan[i];
    && Distinct(p.needed) && (forall o :: o in p.needed ==> o in p.outputs)
    && (forall o :: o in p.mounts ==> Artefact(o) in p.refs)
    && (forall o :: Artefact(o) in p.refs ==> Available(plan, i, o))
    && (forall o, r :: o in p.needed && r in Extra(p, o) ==> Available(plan, i, r))
  }

  /** What the graph promises of its order: each output has one provider, and what a provider
      requires comes before it. */
  ghost predicate Ordered(plan: seq<Provider>) {
    && (forall i, j :: 0 <= i < j < |plan| ==> Apart(plan[i], plan[j]))
    && (forall i :: 0 <= i < |plan| ==> WellFormed(plan, i))
  }

  // ---- The images that an input hash records ----

  /** Provider i requires the image t of an earlier provider, or an image that in turn does. */
  ghost predicate Sees(plan: seq<Provider>, i: nat, t: Name)
    requires i < |plan|
    decreases i
  {
    exists r, m: nat :: r in plan[i].refs && m < i && SeesBy(plan, i, t, r, m)
  }

  ghost predicate SeesBy(plan: seq<Provider>, i: nat, t: Name, r: Ref, m: nat)
    requires m < i < |plan|
    decreases i, 0
  {
    r.Image? && r.tag in plan[m].tags && (plan[m].tags[0] == t || Sees(plan, m, t))
  }

  /** Every image named to run in is recorded. */
  ghost predicate AllSeen(plan: seq<Provider>) {
    forall i :: 0 <= i < |plan| && plan[i].description.runsOn.Some? ==> Sees(plan, i, plan[i].description.runsOn.value)
  }

  lemma ExtendedTag(h: Hashes, p: Provider, w: World, t: Name)
    ensures Image(t) in Extended(h, p, w) <==> Image(t) in h || t in p.tags
    ensures t in p.tags ==> Extended(h, p, w)[Image(t)] == InputDigest(p, h, w)
    ensures t !in p.tags && Image(t) in h ==> Extended(h, p, w)[Image(t)] == h[Image(t)]
  {
    hide InputDigest, NeededHash;
  }

  lemma ExtendedFile(h: Hashes, p: Provider, w: World, o: Output)
    ensures Artefact(o) in Extended(h, p, w) <==> Artefact(o) in h || (o in p.needed && Live(o) in w.files)
    ensures o in p.needed && Live(o) in w.files ==> Extended(h, p, w)[Artefact(o)] == NeededHash(p, InputDigest(p, h, w), h, w, o)
    ensures !(o in p.needed && Live(o) in w.files) && Artefact(o) in h ==> Extended(h, p, w)[Artefact(o)] == h[Artefact(o)]
  {
    hide InputDigest, NeededHash;
  }

  lemma {:induction false} TagHashed(plan: seq<Provider>, n: nat, w: World, k: nat, t: Name)
    requires k < n <= |plan| && Ordered(plan) && t in plan[k].tags
    ensures Image(t) in HashesOf(plan, n, w) && HashesOf(plan, n, w)[Image(t)] == BaseFor(plan, k, w)
  {
    hide InputDigest, Extended;
    ExtendedTag(HashesOf(plan, n - 1, w), plan[n - 1], w, t);
    if k < n - 1 {
      TagHashed(plan, n - 1, w, k, t);
      assert Apart(plan[k], plan[n - 1]);
    }
  }

  /** A hash is at hand for the image tags of the providers so far, and for no others. */
  lemma {:induction false} TagIsProvided(plan: seq<Provider>, n: nat, w: World, t: Name) returns (m: nat)
    requires n <= |plan| && Image(t) in HashesOf(plan, n, w)
    ensures m < n && t in plan[m].tags
  {
    hide InputDigest, Extended;
    ExtendedTag(HashesOf(plan, n - 1, w), plan[n - 1], w, t);
    if t in plan[n - 1].tags { m := n - 1; } else { m := TagIsProvided(plan, n - 1, w, t); }
  }

  /** The input hash shows the image that is seen, with the input hash of its provider. */
  lemma {:induction false} SeenIsShown(plan: seq<Provider>, i: nat, w: World, t: Name) returns (k: nat)
    requires i < |plan| && Ordered(plan) && Sees(plan, i, t)
    ensures k < i && plan[k].tags != [] && plan[k].tags[0] == t && Shows(BaseFor(plan, i, w), t, BaseFor(plan, k, w))
    decreases i
  {
    hide HashesOf, Ordered;
    var base := BaseFor(plan, i, w);
    var r, m: nat :| r in plan[i].refs && m < i && SeesBy(plan, i, t, r, m);
    TagHashed(plan, i, w, m, r.tag);
    assert base.inputs[r] == Some(BaseFor(plan, m, w));
    if plan[m].tags[0] == t {
      k := m;
    } else {
      k := SeenIsShown(plan, m, w, t);
    }
    assert ShownBy(base.inputs[r], base, r, t, BaseFor(plan, k, w));
  }

  /** And it shows nothing else under that name. */
  lemma {:induction false} ShownIsSeen(plan: seq<Provider>, i: nat, w: World, t: Name, d: Digest) returns (k: nat)
    requires i < |plan| && Ordered(plan) && Shows(BaseFor(plan, i, w), t, d)
    ensures k < i && plan[k].tags != [] && plan[k].tags[0] == t && d == BaseFor(plan, k, w) && Sees(plan, i, t)
    decreases i
  {
    hide HashesOf, Ordered;
    var base := BaseFor(plan, i, w);
    var r :| r in base.inputs && ShownBy(base.inputs[r], base, r, t, d);
    var m := TagIsProvided(plan, i, w, r.tag);
    TagHashed(plan, i, w, m, r.tag);
    if base.inputs[r].value == d && Builds(d, t) {
      k := m;
    } else {
      k := ShownIsSeen(plan, m, w, t, d);
    }
    assert SeesBy(plan, i, t, r, m);
  }

  // ---- Only the inputs matter ----

  /** o has the same bytes in w and w', and, if no provider's, the same hash. */
  ghost predicate SameInput(plan: seq<Provider>, w: World, w': World, o: Output) {
    FileDigest(w.files, o) == FileDigest(w'.files, o) && (External(plan, o) ==> PathDigest(w, o) == PathDigest(w', o))
  }

  /** w and w' agree wherever the first n providers look. */
  ghost predicate SameInputs(plan: seq<Provider>, n: nat, w: World, w': World)
    requires n <= |plan|
  {
    forall o :: Available(plan, n, o) ==> SameInput(plan, w, w', o)
  }

  lemma SameInputsUpTo(plan: seq<Provider>, n: nat, w: World, w': World, i: nat)
    requires i <= n <= |plan| && SameInputs(plan, n, w, w')
    ensures SameInputs(plan, i, w, w')
  {
    forall o | Available(plan, i, o) ensures Available(plan, n, o) {}
  }

  lemma SameAvailable(plan: seq<Provider>, n: nat, w: World, w': World, o: Output)
    requires n <= |plan| && SameInputs(plan, n, w, w') && Available(plan, n, o)
    ensures SameInput(plan, w, w', o)
  {
  }

  lemma {:induction false} NeededHashed(plan: seq<Provider>, n: nat, w: World, o: Output)
    requires n <= |plan| && Provided(plan, n, o) && Live(o) in w.files
    ensures Artefact(o) in HashesOf(plan, n, w)
  {
    hide Extended;
    ExtendedFile(HashesOf(plan, n - 1, w), plan[n - 1], w, o);
    if o !in plan[n - 1].needed {
      assert Provided(plan, n - 1, o);
      NeededHashed(plan, n - 1, w, o);
    }
  }

  /** What an available input contributes to a hash is the same in both. */
  lemma RefDepends(plan: seq<Provider>, i: nat, w: World, w': World, o: Output)
    requires i <= |plan| && SameInputs(plan, i, w, w') && HashesOf(plan, i, w) == HashesOf(plan, i, w') && Available(plan, i, o)
    ensures RefDigest(HashesOf(plan, i, w), w, Artefact(o)) == RefDigest(HashesOf(plan, i, w), w', Artefact(o))
    ensures FileDigest(w.files, o) == FileDigest(w'.files, o)
  {
    hide HashesOf, SameInputs;
    SameAvailable(plan, i, w, w', o);
    if Provided(plan, i, o) && Live(o) in w.files { NeededHashed(plan, i, w, o); }
  }

  lemma BaseDepends(plan: seq<Provider>, i: nat, w: World, w': World)
    requires i < |plan| && Ordered(plan) && SameInputs(plan, i, w, w') && HashesOf(plan, i, w) == HashesOf(plan, i, w')
    ensures BaseFor(plan, i, w) == BaseFor(plan, i, w')
  {
    hide HashesOf, SameInputs, Available, RefDigest, FileDigest;
    var p, h := plan[i], HashesOf(plan, i, w);
    assert WellFormed(plan, i);
    forall o | Artefact(o) in p.refs
      ensures RefDigest(h, w, Artefact(o)) == RefDigest(h, w', Artefact(o)) && FileDigest(w.files, o) == FileDigest(w'.files, o)
    {
      RefDepends(plan, i, w, w', o);
    }
    forall r | r in p.refs ensures RefDigest(h, w, r) == RefDigest(h, w', r) {
      if r.Image? { ImageDigest(h, w, w', r); } else { assert r == Artefact(r.output); }
    }
  }

  lemma ImageDigest(h: Hashes, w: World, w': World, r: Ref)
    requires r.Image?
    ensures RefDigest(h, w, r) == RefDigest(h, w', r)
  {
  }

  lemma OutputDepends(plan: seq<Provider>, i: nat, w: World, w': World, o: Output)
    requires i < |plan| && Ordered(plan) && SameInputs(plan, i, w, w') && HashesOf(plan, i, w) == HashesOf(plan, i, w') && o in plan[i].needed
    ensures DigestFor(plan, i, w, o) == DigestFor(plan, i, w', o)
  {
    hide HashesOf, SameInputs, Available, RefDigest, BaseFor;
    BaseDepends(plan, i, w, w');
    assert WellFormed(plan, i);
    forall r | r in Extra(plan[i], o)
      ensures RefDigest(HashesOf(plan, i, w), w, Artefact(r)) == RefDigest(HashesOf(plan, i, w), w', Artefact(r))
    {
      RefDepends(plan, i, w, w', r);
    }
  }

  lemma {:induction false} HashesDepend(plan: seq<Provider>, n: nat, w: World, w': World)
    requires n <= |plan| && Ordered(plan) && SameInputs(plan, n, w, w')
    ensures HashesOf(plan, n, w) == HashesOf(plan, n, w')
  {
    hide SameInputs, TagHashes, NeededHashes, InputDigest;
    if n > 0 {
      SameInputsUpTo(plan, n, w, w', n - 1);
      HashesDepend(plan, n - 1, w, w');
      BaseDepends(plan, n - 1, w, w');
      NeededDepend(plan, n, w, w');
    }
  }

  lemma NeededDepend(plan: seq<Provider>, n: nat, w: World, w': World)
    requires 0 < n <= |plan| && Ordered(plan) && SameInputs(plan, n, w, w') && SameInputs(plan, n - 1, w, w')
    requires HashesOf(plan, n - 1, w) == HashesOf(plan, n - 1, w') && BaseFor(plan, n - 1, w) == BaseFor(plan, n - 1, w')
    ensures NeededHashes(plan[n - 1], BaseFor(plan, n - 1, w), HashesOf(plan, n - 1, w), w)
         == NeededHashes(plan[n - 1], BaseFor(plan, n - 1, w'), HashesOf(plan, n - 1, w'), w')
  {
    hide SameInputs, HashesOf, BaseFor, OutputDigest, Ordered;
    var p, d, h := plan[n - 1], BaseFor(plan, n - 1, w), HashesOf(plan, n - 1, w);
    forall o | o in p.needed ensures (Live(o) in w.files <==> Live(o) in w'.files)
      ensures Live(o) in w.files ==> NeededHash(p, d, h, w, o) == NeededHash(p, d, h, w', o)
    {
      assert Provided(plan, n, o);
      SameAvailable(plan, n, w, w', o);
      OutputDepends(plan, n - 1, w, w', o);
    }
    hide NeededHash;
    var m, m' := NeededHashes(p, d, h, w), NeededHashes(p, d, h, w');
    forall r: Ref ensures (r in m <==> r in m') && (r in m ==> m[r] == m'[r]) {
      if r.Artefact? && r.output in p.needed { assert Artefact(r.output) == r; }
    }
    assert m.Keys == m'.Keys;
  }

  lemma DigestDepends(plan: seq<Provider>, i: nat, w: World, w': World, o: Output)
    requires i < |plan| && Ordered(plan) && SameInputs(plan, i, w, w') && o in plan[i].needed
    ensures DigestFor(plan, i, w, o) == DigestFor(plan, i, w', o)
  {
    HashesDepend(plan, i, w, w');
    OutputDepends(plan, i, w, w', o);
  }

  lemma RunsSomewhere(plan: seq<Provider>, i: nat, w: World) returns (image: Digest)
    requires i < |plan| && Ordered(plan) && AllSeen(plan)
    ensures RunsIn(BaseFor(plan, i, w), image)
  {
    var on := plan[i].description.runsOn;
    if on.None? {
      image := BaseFor(plan, i, w);
    } else {
      var k := SeenIsShown(plan, i, w, on.value);
      image := BaseFor(plan, k, w);
    }
  }

  lemma OneProduct(c: Content, c': Content, made: Product)
    requires Holds(c, made) && Holds(c', made)
    ensures ContentDigest(c) == ContentDigest(c')
  {
  }

  /** A finished build is unique: whatever way two file systems got there, if they agree on what
      comes from outside, they agree on every needed output. */
  lemma {:induction false} FinishedBuildsAgree(make: Make, plan: seq<Provider>, n: nat, w: World, w': World)
    requires n <= |plan| && Ordered(plan) && AllSeen(plan)
    requires Consistent(make, plan, n, w) && Consistent(make, plan, n, w')
    requires forall o :: External(plan, o) ==> SameInput(plan, w, w', o)
    ensures SameInputs(plan, n, w, w')
  {
    hide RunsIn, HashesOf, ContentDigest, Holds, PathDigest;
    if n > 0 {
      FinishedBuildsAgree(make, plan, n - 1, w, w');
      forall o | Available(plan, n, o) ensures SameInput(plan, w, w', o) {
        if o in plan[n - 1].needed {
          assert WellFormed(plan, n - 1);
          DigestDepends(plan, n - 1, w, w', o);
          var image := RunsSomewhere(plan, n - 1, w);
          var d := DigestFor(plan, n - 1, w, o);
          assert Base(d) == BaseFor(plan, n - 1, w);
          assert MadeFrom(make, w.files, o, d) && MadeFrom(make, w'.files, o, d);
          OneProduct(w.files[Live(o)], w'.files[Live(o)], make(o, d, image));
        } else if Provided(plan, n, o) {
          assert Provided(plan, n - 1, o);
        }
      }
    }
  }

  // ---- The cache ----

  /** A container image, by its identity: what it was built from and when. */
  datatype ImageId = ImageId(inputs: Digest, serial: int)

  datatype Cache = Cache(entries: map<Output, Entry>, images: map<(Name, ImageId), Digest>)

  function At(fs: Files, cache: Cache): World {
    World(fs, cache.entries)
  }

  function StampOf(c: Content): Stamp
    requires c.File?
  {
    Stamp(c.mtime, c.bytes)
  }

  /** A file is clean if it is as recorded; a directory, if one was recorded. */
  predicate IsDirty(o: Output, d: Digest, entries: map<Output, Entry>, fs: Files) {
    if Live(o) !in fs || o !in entries || entries[o].inputs != d then true
    else if !fs[Live(o)].File? || entries[o].kind.Directory? then fs[Live(o)].File? || !entries[o].kind.Directory?
    else StampOf(fs[Live(o)]) != entries[o].kind.stamp && ContentDigest(fs[Live(o)]) != entries[o].hash
  }

  /** The entry records what the builder makes of the inputs recorded; a directory's hash is that of
      its inputs. */
  ghost predicate SoundEntry(make: Make, o: Output, e: Entry) {
    match e.kind
    case Regular(stamp) => e.hash == OfBytes(stamp.content) && forall image :: RunsIn(Base(e.inputs), image) ==> make(o, e.inputs, image) == FileOf(stamp.content)
    case Directory => e.hash == e.inputs
  }

  ghost predicate Sound(make: Make, cache: Cache) {
    && (forall o :: o in cache.entries ==> SoundEntry(make, o, cache.entries[o]))
    && (forall k :: k in cache.images ==> cache.images[k] == k.1.inputs)
  }

  /** The directories recorded are as their builders made them. */
  ghost predicate Intact(make: Make, w: World) {
    forall o :: o in w.entries ==> IntactAt(make, w, o)
  }

  ghost predicate IntactAt(make: Make, w: World, o: Output)
    requires o in w.entries
  {
    w.entries[o].kind.Directory? && Live(o) in w.files && !w.files[Live(o)].File? ==> MadeFrom(make, w.files, o, w.entries[o].inputs)
  }

  /** A clean output is what a build from these inputs would make, whichever earlier run made it: a
      file in any case, a directory if it was left alone since. */
  lemma CleanIsMade(make: Make, o: Output, d: Digest, cache: Cache, fs: Files)
    requires Sound(make, cache) && !IsDirty(o, d, cache.entries, fs)
    ensures o in cache.entries && (IntactAt(make, At(fs, cache), o) ==> MadeFrom(make, fs, o, d))
    ensures fs[Live(o)].File? ==> MadeFrom(make, fs, o, d) && ContentDigest(fs[Live(o)]) == cache.entries[o].hash
    ensures !fs[Live(o)].File? ==> cache.entries[o].kind.Directory? && cache.entries[o].hash == d
  {
    assert SoundEntry(make, o, cache.entries[o]);
  }

  /** That a clean output is as made, whatever lies at its path. */
  ghost predicate CleanMeansMade(make: Make, o: Output, d: Digest, e: Entry) {
    forall c: Content :: IsDirty(o, d, map[o := e], map[Live(o) := c]) || MadeFrom(make, map[Live(o) := c], o, d)
  }

  /** This holds exactly for files: a directory is clean whatever is in it. */
  lemma OnlyFilesAreChecked(make: Make, o: Output, e: Entry, image: Digest)
    requires SoundEntry(make, o, e) && RunsIn(Base(e.inputs), image)
    ensures CleanMeansMade(make, o, e.inputs, e) <==> e.kind.Regular?
  {
    hide RunsIn;
    if e.kind.Regular? {
      forall c: Content | !IsDirty(o, e.inputs, map[o := e], map[Live(o) := c]) ensures MadeFrom(make, map[Live(o) := c], o, e.inputs) {
        CleanIsMade(make, o, e.inputs, Cache(map[o := e], map[]), map[Live(o) := c]);
      }
    } else {
      var made := make(o, e.inputs, image);
      var c := Folder(made.bytes + [0]);
      assert !IsDirty(o, e.inputs, map[o := e], map[Live(o) := c]);
      assert !Holds(c, made) && !MadeFrom(make, map[Live(o) := c], o, e.inputs);
    }
  }

  /** So a commit that was stopped is trusted once the sources are put back: whatever the new
      directory holds, it counts as the one recorded before. */
  lemma StoppedIsTrusted(make: Make, fs: Files, outputs: seq<Output>, writes: Files, k: nat, o: Output, was: Content, e: Entry)
    requires o in outputs && Live(o) in writes && !writes[Live(o)].File? && Held(fs, o, was) && e.kind.Directory?
    ensures var fs' := After(fs, StoppedInCommit(outputs, writes, k));
      && !IsDirty(o, e.inputs, map[o := e], fs')
      && (MadeFrom(make, fs', o, e.inputs) <==> forall image :: RunsIn(Base(e.inputs), image) ==> Holds(writes[Live(o)], make(o, e.inputs, image)))
  {
    hide After, RunsIn, Holds;
    StoppedInCommitKeepsNew(fs, outputs, writes, k, o, was);
  }

  /** And half a directory is trusted: some stop of a commit, and then any failed attempt, leave
      half of the old one, clean for the inputs it was recorded for. */
  lemma HalfIsTrusted(make: Make, fs: Files, outputs: seq<Output>, writes: Files, o: Output, c: Content, next: Attempt, e: Entry, image: Digest) returns (k: nat)
    requires Distinct(outputs) && o in outputs && Held(fs, o, c) && !AtOnce(c)
    requires next.Failed? && Distinct(next.outputs) && o in next.outputs
    requires e.kind.Directory? && RunsIn(Base(e.inputs), image)
    ensures var fs' := AfterAll(fs, [StoppedInCommit(outputs, writes, k), next]);
      !IsDirty(o, e.inputs, map[o := e], fs') && !MadeFrom(make, fs', o, e.inputs)
  {
    hide AfterAll, RunsIn;
    k := DirectoryIsLost(fs, outputs, writes, o, c, next);
    assert !Holds(Partial, make(o, e.inputs, image));
  }
}
