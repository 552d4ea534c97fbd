/**
 Image references and the manifest: how an image argument is parsed, stored in a container's record and
 parsed again, and how pulls maintain the list that lookups search.
 */
module Images {
  import opened Common
  import opened Strings

  /** Name and tag of an image argument; more than one colon yields an empty name and tag. */
  function Parse(input: string): (string, string) {
    var s := Split(input, ':');
    if |s| == 1 then (s[0], "latest")
    else if |s| == 2 then (s[0], s[1])
    else ("", "")
  }

  /** Without a colon the tag is latest; around one colon stand name and tag; with more there is neither. */
  lemma ParseMeans(name: string, tag: string, input: string)
    requires ':' !in name && ':' !in tag
    ensures Parse(name) == (name, "latest")
    ensures Parse(name + [':'] + tag) == (name, tag)
    ensures Count(input, ':') > 1 ==> Parse(input) == ("", "")
  {
    SplitFirst(name, tag, ':');
    SplitFirst(tag, [], ':');
    SplitPieces(input, ':');
  }

  function Format(name: string, tag: string): string {
    name + [':'] + tag
  }

  /** The manifest key an image argument leads to. */
  function KeyOf(input: string): string {
    Format(Parse(input).0, Parse(input).1)
  }

  lemma FormatSplits(name: string, tag: string)
    requires ':' !in name && ':' !in tag
    ensures Split(Format(name, tag), ':') == [name, tag]
  {
    SplitFirst(name, tag, ':');
    SplitFirst(tag, [], ':');
  }

  /** Parsing the formatted pair gives the pair back, for every image argument whatever. */
  lemma ParseOfFormat(input: string)
    ensures Parse(KeyOf(input)) == Parse(input)
    ensures KeyOf(KeyOf(input)) == KeyOf(input)
  {
    SplitPieces(input, ':');
    var s := Split(input, ':');
    assert ':' !in s[0] && (|s| == 2 ==> ':' !in s[1]);
    FormatSplits(Parse(input).0, Parse(input).1);
  }

  /** An argument is its own manifest key exactly when it has one colon: a tag and no port, or a port and no
      tag. Any other argument is pulled under a key that no run or start of it looks up. */
  lemma ArgumentIsItsOwnKey(input: string)
    ensures KeyOf(input) == input <==> Count(input, ':') == 1
  {
    SplitPieces(input, ':');
    var s := Split(input, ':');
    assert ':' !in s[0] && (|s| == 2 ==> ':' !in s[1]);
    if |s| == 2 {
      assert s[1..] == [s[1]];
    } else {
      FormatSplits(Parse(input).0, Parse(input).1);
      assert |Split(KeyOf(input), ':')| == 2;
    }
  }

  // ----- the manifest

  datatype Entry = Entry(repoTag: string, imageId: string)
  type Manifest = seq<Entry>

  /** The first matching element is changed in place, otherwise a new one is appended. */
  function Updated(m: Manifest, tag: string, id: string): Manifest {
    if m == [] then [Entry(tag, id)]
    else if m[0].repoTag == tag then [Entry(tag, id)] + m[1..]
    else [m[0]] + Updated(m[1..], tag, id)
  }

  /** First-match search. */
  function Find(m: Manifest, tag: string): Option<string> {
    if m == [] then None
    else if m[0].repoTag == tag then Some(m[0].imageId)
    else Find(m[1..], tag)
  }

  ghost predicate UniqueTags(m: Manifest) {
    forall i, j :: 0 <= i < j < |m| ==> m[i].repoTag != m[j].repoTag
  }

  ghost predicate HasTag(m: Manifest, tag: string) {
    exists i :: 0 <= i < |m| && m[i].repoTag == tag
  }

  lemma {:induction false} UpdatedAt(m: Manifest, tag: string, id: string, k: nat)
    requires forall i :: 0 <= i < k <= |m| ==> m[i].repoTag != tag
    requires k <= |m| && (k < |m| ==> m[k].repoTag == tag)
    ensures Updated(m, tag, id) == if k < |m| then m[k := Entry(tag, id)] else m + [Entry(tag, id)]
  {
    if k > 0 {
      UpdatedAt(m[1..], tag, id, k - 1);
      assert m == [m[0]] + m[1..];
    }
  }

  lemma {:induction false} UpdatedTags(m: Manifest, tag: string, id: string)
    requires UniqueTags(m)
    ensures UniqueTags(Updated(m, tag, id))
    ensures forall t :: HasTag(Updated(m, tag, id), t) ==> t == tag || HasTag(m, t)
  {
    var k := 0;
    while k < |m| && m[k].repoTag != tag
      invariant 0 <= k <= |m|
      invariant forall i :: 0 <= i < k ==> m[i].repoTag != tag
    {
      k := k + 1;
    }
    UpdatedAt(m, tag, id, k);
  }

  /** An update is visible under its own tag and under no other. */
  lemma {:induction false} FindUpdated(m: Manifest, tag: string, id: string, other: string)
    ensures Find(Updated(m, tag, id), other) == if other == tag then Some(id) else Find(m, other)
  {
    if m != [] && m[0].repoTag != tag {
      FindUpdated(m[1..], tag, id, other);
      assert Updated(m, tag, id)[1..] == Updated(m[1..], tag, id);
    }
  }

  datatype Pull = Pull(tag: string, id: string)

  function AfterPulls(pulls: seq<Pull>): Manifest {
    if pulls == [] then []
    else Updated(AfterPulls(pulls[..|pulls| - 1]), pulls[|pulls| - 1].tag, pulls[|pulls| - 1].id)
  }

  /** The reference: a map from exact tag to the image pulled last under it. */
  function LastPulled(pulls: seq<Pull>): map<string, string> {
    if pulls == [] then map[]
    else LastPulled(pulls[..|pulls| - 1])[pulls[|pulls| - 1].tag := pulls[|pulls| - 1].id]
  }

  function Lookup(images: map<string, string>, tag: string): Option<string> {
    if tag in images then Some(images[tag]) else None
  }

  /** Over any sequence of pulls the list has unique tags and answers as the map does. */
  lemma {:induction false} ManifestRefinesMap(pulls: seq<Pull>, tag: string)
    ensures UniqueTags(AfterPulls(pulls))
    ensures Find(AfterPulls(pulls), tag)
         == Lookup(LastPulled(pulls), tag)
  {
    if pulls != [] {
      var init, p := pulls[..|pulls| - 1], pulls[|pulls| - 1];
      ManifestRefinesMap(init, tag);
      UpdatedTags(AfterPulls(init), p.tag, p.id);
      FindUpdated(AfterPulls(init), p.tag, p.id, tag);
    }
  }

  /** The lookup a container's file system is built from. */
  function FindImageRootfs(m: Manifest, name: string, tag: string): Option<string> {
    Find(m, Format(name, tag))
  }

  lemma {:induction false} OtherPullsChangeNothing(pulls: seq<Pull>, more: seq<Pull>, tag: string)
    requires forall i :: 0 <= i < |more| ==> more[i].tag != tag
    ensures Find(AfterPulls(pulls + more), tag) == Find(AfterPulls(pulls), tag)
  {
    if more == [] {
      assert pulls + more == pulls;
    } else {
      var init, p := more[..|more| - 1], more[|more| - 1];
      OtherPullsChangeNothing(pulls, init, tag);
      assert (pulls + more)[..|pulls + more| - 1] == pulls + init;
      FindUpdated(AfterPulls(pulls + init), p.tag, p.id, tag);
    }
  }

  /** End to end: a run of an image argument and every later start from the stored record look up the
      same key, whatever is pulled in between. Each gets the image pulled last under exactly that key by
      then, so the start gets the run's image unless that key was pulled again. */
  lemma RunAndStartAgree(pulls: seq<Pull>, more: seq<Pull>, input: string)
    ensures
      var (name, tag) := Parse(input);
      var (name', tag') := Parse(Format(name, tag));
      var run, start := AfterPulls(pulls), AfterPulls(pulls + more);
      && Format(name', tag') == Format(name, tag)
      && FindImageRootfs(run, name, tag) == Lookup(LastPulled(pulls), KeyOf(input))
      && FindImageRootfs(start, name', tag') == Lookup(LastPulled(pulls + more), KeyOf(input))
      && ((forall i :: 0 <= i < |more| ==> more[i].tag != KeyOf(input)) ==>
            FindImageRootfs(start, name', tag') == FindImageRootfs(run, name, tag))
  {
    ParseOfFormat(input);
    ManifestRefinesMap(pulls, KeyOf(input));
    ManifestRefinesMap(pulls + more, KeyOf(input));
    if forall i :: 0 <= i < |more| ==> more[i].tag != KeyOf(input) {
      OtherPullsChangeNothing(pulls, more, KeyOf(input));
    }
  }

  /** Pulling an argument and then running that same argument finds the pulled image for every prior
      history exactly when the argument has one colon. */
  lemma PulledIsFound(pulls: seq<Pull>, input: string, id: string)
    ensures
      var (name, tag) := Parse(input);
      var found := FindImageRootfs(AfterPulls(pulls + [Pull(input, id)]), name, tag);
      && (Count(input, ':') == 1 ==> found == Some(id))
      && (Count(input, ':') != 1 ==> found == FindImageRootfs(AfterPulls(pulls), name, tag))
  {
    ArgumentIsItsOwnKey(input);
    assert (pulls + [Pull(input, id)])[..|pulls|] == pulls;
    FindUpdated(AfterPulls(pulls), input, id, KeyOf(input));
  }

  /** What a run of an image argument finds. */
  function RunFinds(pulls: seq<Pull>, input: string): Option<string> {
    FindImageRootfs(AfterPulls(pulls), Parse(input).0, Parse(input).1)
  }

  /** Pulled into an empty list, an image named without tag and port is not found by a run of that name. */
  lemma UntaggedIsNotFound(input: string, id: string)
    requires ':' !in input
    ensures RunFinds([Pull(input, id)], input) == None
  {
    PulledIsFound([], input, id);
    assert [] + [Pull(input, id)] == [Pull(input, id)];
    SplitPieces(input, ':');
    SplitFirst(input, [], ':');
  }

  /** One from a registry with a port, named without a tag, is found. */
  lemma PortWithoutTagIsFound(host: string, path: string, id: string)
    requires ':' !in host && ':' !in path
    ensures var input := host + [':'] + path; RunFinds([Pull(input, id)], input) == Some(id)
  {
    var input := host + [':'] + path;
    PulledIsFound([], input, id);
    assert [] + [Pull(input, id)] == [Pull(input, id)];
    SplitPieces(input, ':');
    SplitFirst(host, path, ':');
    SplitFirst(path, [], ':');
  }

  const ALPINE := "alpine"
  const LOCAL_APP := "localhost" + [':'] + "5000/app"

  /** The two sides at real arguments. */
  lemma AlpineAndLocalApp(id: string)
    ensures RunFinds([Pull(ALPINE, id)], ALPINE) == None
    ensures RunFinds([Pull(LOCAL_APP, id)], LOCAL_APP) == Some(id)
  {
    UntaggedIsNotFound(ALPINE, id);
    PortWithoutTagIsFound("localhost", "5000/app", id);
  }

  class ImageManager {
    var manifest: Manifest

    constructor ()
      ensures manifest == []
    {
      manifest := [];
    }

    method UpdateManifest(repoTag: string, imageId: string)
      modifies this`manifest
      ensures manifest == Updated(old(manifest), repoTag, imageId)
    {
      var manifests := manifest;
      var found := false;
      var i := 0;
      while i < |manifests| && !found
        invariant 0 <= i <= |manifests| == |manifest|
        invariant manifest == old(manifest)
        invariant !found ==> manifests == manifest && forall k :: 0 <= k < i ==> manifest[k].repoTag != repoTag
        invariant found ==> manifests == Updated(manifest, repoTag, imageId)
        decreases |manifests| - i, !found
      {
        if manifests[i].repoTag == repoTag {
          UpdatedAt(manifest, repoTag, imageId, i);
          manifests := manifests[i := manifests[i].(imageId := imageId)];
          found := true;
        } else {
          i := i + 1;
        }
      }
      if !found {
        UpdatedAt(manifest, repoTag, imageId, i);
        manifests := manifests + [Entry(repoTag, imageId)];
      }
      manifest := manifests;
    }

    /** The tags, in manifest order. */
    method ListImages() returns (images: seq<string>)
      ensures |images| == |manifest|
      ensures forall i :: 0 <= i < |images| ==> images[i] == manifest[i].repoTag
      ensures forall tag :: tag in images <==> Find(manifest, tag).Some?
    {
      images := [];
      var i := 0;
      while i < |manifest|
        invariant 0 <= i <= |manifest| && |images| == i
        invariant forall k :: 0 <= k < i ==> images[k] == manifest[k].repoTag
      {
        images := images + [manifest[i].repoTag];
        i := i + 1;
      }
      forall tag
        ensures tag in images <==> Find(manifest, tag).Some?
      {
        FindHas(manifest, tag);
        if tag in images {
          var k :| 0 <= k < |images| && images[k] == tag;
          assert manifest[k].repoTag == tag;
        }
        if HasTag(manifest, tag) {
          var k :| 0 <= k < |manifest| && manifest[k].repoTag == tag;
          assert images[k] == tag;
        }
      }
    }
  }

  lemma {:induction false} FindHas(m: Manifest, tag: string)
    ensures Find(m, tag).Some? <==> HasTag(m, tag)
  {
    if m != [] {
      FindHas(m[1..], tag);
      if HasTag(m[1..], tag) {
        var i :| 0 <= i < |m[1..]| && m[1..][i].repoTag == tag;
        assert m[i + 1].repoTag == tag;
      }
      if HasTag(m, tag) && m[0].repoTag != tag {
        var i :| 0 <= i < |m| && m[i].repoTag == tag;
        assert m[1..][i - 1].repoTag == tag;
      }
    }
  }
}
