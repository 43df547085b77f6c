/**
 * `createGroups` of src/hooks/useAutoPost.ts: the selected images split into
 * consecutive groups of at most four, each group starting out pending.
 */
module Segmenter {
  import opened Wrappers
  import opened StatusMonitor

  /** An image the user picked: an opaque handle on its file and its local preview reference. */
  datatype ImageFile = ImageFile(file: nat, preview: string)

  const GroupSize: nat := 4

  /** `xs.slice(from, to)`, which clamps both ends to the length. */
  function Slice<T>(xs: seq<T>, from: nat, to: nat): (r: seq<T>)
    ensures |r| == Max(0, Min(to, |xs|) - Min(from, |xs|))
    ensures forall k :: 0 <= k < |r| ==> r[k] == xs[from + k]
  {
    var a := Min(from, |xs|);
    var b := Max(a, Min(to, |xs|));
    xs[a..b]
  }

  /** The images of group `j`: `images.slice(4j, 4j + 4)`. */
  function Chunk<T>(xs: seq<T>, j: nat): seq<T> {
    Slice(xs, GroupSize * j, GroupSize * j + GroupSize)
  }

  /** The number of groups for `n` images: n / 4 rounded up. */
  function NumGroups(n: nat): (g: nat)
    ensures GroupSize * g >= n && (g > 0 ==> GroupSize * (g - 1) < n)
  {
    (n + GroupSize - 1) / GroupSize
  }

  function Previews(images: seq<ImageFile>): (p: seq<string>)
    ensures |p| == |images| && forall k :: 0 <= k < |p| ==> p[k] == images[k].preview
  {
    seq(|images|, k requires 0 <= k < |images| => images[k].preview)
  }

  /** A group as `createGroups` makes it. */
  function NewGroup(id: string, images: seq<ImageFile>): PostGroup {
    PostGroup(id, Previews(images), Pending, None, 0)
  }

  /** Every group is pending, has never been retried and carries no error. */
  predicate AllFresh(groups: seq<PostGroup>) {
    forall j :: 0 <= j < |groups| ==> groups[j].status == Pending && groups[j].retryCount == 0 && groups[j].error == None
  }

  /**
   * The groups for `images`; the j-th call of the id generator names the j-th group.
   * All groups but the last hold four images, the last one to four.
   */
  function Segment(images: seq<ImageFile>, uuid: nat -> string): (groups: seq<PostGroup>)
    ensures |groups| == NumGroups(|images|)
    ensures groups == [] <==> images == []
    ensures AllFresh(groups)
    ensures forall j :: 0 <= j < |groups| - 1 ==> |groups[j].images| == GroupSize
    ensures groups != [] ==> 1 <= |groups[|groups| - 1].images| <= GroupSize
    ensures forall j :: 0 <= j < |groups| ==> groups[j].id == uuid(j)
  {
    var n := NumGroups(|images|);
    var groups := seq(n, j requires 0 <= j < n => NewGroup(uuid(j), Chunk(images, j)));
    assert forall j :: 0 <= j < n ==> groups[j] == NewGroup(uuid(j), Chunk(images, j));
    assert forall j :: 0 <= j < n ==> |groups[j].images| == Min(GroupSize, |images| - GroupSize * j);
    groups
  }

  /** The previews a group shows are those of the files posted for it. */
  lemma SegmentShowsChunks(images: seq<ImageFile>, uuid: nat -> string, j: nat)
    requires j < NumGroups(|images|)
    ensures Segment(images, uuid)[j].images == Previews(Chunk(images, j))
    ensures 1 <= |Chunk(images, j)| <= GroupSize
  {
  }

  /** The images of all groups, one group after the other. */
  function Flatten(groups: seq<PostGroup>): seq<string> {
    if groups == [] then [] else Flatten(groups[..|groups| - 1]) + groups[|groups| - 1].images
  }

  /** Reading the groups in order gives back every preview, in the original order. */
  lemma SegmentPreservesOrder(images: seq<ImageFile>, uuid: nat -> string)
    ensures Flatten(Segment(images, uuid)) == Previews(images)
  {
    var groups := Segment(images, uuid);
    FlattenPrefix(images, uuid, |groups|);
    assert groups[..|groups|] == groups;
    assert images[..Min(|images|, GroupSize * |groups|)] == images;
  }

  /** The first `g` groups hold the first 4g images. */
  lemma {:induction false} FlattenPrefix(images: seq<ImageFile>, uuid: nat -> string, g: nat)
    requires g <= NumGroups(|images|)
    ensures Flatten(Segment(images, uuid)[..g]) == Previews(images[..Min(|images|, GroupSize * g)])
  {
    var groups := Segment(images, uuid);
    if g == 0 {
      assert groups[..0] == [];
      assert images[..0] == [];
    } else {
      FlattenPrefix(images, uuid, g - 1);
      var lo, hi := GroupSize * (g - 1), Min(|images|, GroupSize * g);
      assert groups[..g][..g - 1] == groups[..g - 1];
      assert Flatten(groups[..g]) == Flatten(groups[..g - 1]) + groups[g - 1].images;
      assert Chunk(images, g - 1) == images[lo..hi];
      assert images[..hi] == images[..lo] + images[lo..hi];
      PreviewsAppend(images[..lo], images[lo..hi]);
    }
  }

  lemma PreviewsAppend(a: seq<ImageFile>, b: seq<ImageFile>)
    ensures Previews(a + b) == Previews(a) + Previews(b)
  {
  }

  /** `createGroups`: a loop that steps through the images four at a time. */
  method CreateGroups(images: seq<ImageFile>, uuid: nat -> string) returns (newGroups: seq<PostGroup>)
    ensures newGroups == Segment(images, uuid)
  {
    newGroups := [];
    var i := 0;
    while i < |images|
      invariant i == GroupSize * |newGroups|
      invariant |newGroups| <= NumGroups(|images|)
      invariant forall j :: 0 <= j < |newGroups| ==> newGroups[j] == NewGroup(uuid(j), Chunk(images, j))
    {
      var chunk := Slice(images, i, i + GroupSize);
      newGroups := newGroups + [PostGroup(uuid(|newGroups|), Previews(chunk), Pending, None, 0)];
      i := i + GroupSize;
    }
  }
}
