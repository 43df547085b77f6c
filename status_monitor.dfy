/**
 * The group record shared by the posting hook and the status panel
 * (src/components/StatusMonitor.tsx), and the panel's progress arithmetic
 * and per-status labels.
 */
module StatusMonitor {
  import opened Wrappers

  /** The life cycle of one group: pending and posting are transient, success and failed final. */
  datatype Status = Pending | Posting | Success | Failed

  /** One batch of at most four images that is posted as one entry. */
  datatype PostGroup = PostGroup(
    id: string,
    images: seq<string>,      // preview references of the group's images, in order
    status: Status,
    error: Option<string>,
    retryCount: nat)

  /** `groups.filter(g => g.status === 'success').length` */
  function SuccessCount(groups: seq<PostGroup>): (c: nat)
    ensures c <= |groups|
    ensures c == |groups| <==> forall k :: 0 <= k < |groups| ==> groups[k].status == Success
    ensures c == 0 <==> forall k :: 0 <= k < |groups| ==> groups[k].status != Success
  {
    if groups == [] then 0
    else SuccessCount(groups[..|groups| - 1]) + (if groups[|groups| - 1].status == Success then 1 else 0)
  }

  /** Counting successes distributes over concatenation. */
  lemma {:induction false} SuccessCountAppend(a: seq<PostGroup>, b: seq<PostGroup>)
    ensures SuccessCount(a + b) == SuccessCount(a) + SuccessCount(b)
    decreases |b|
  {
    if b == [] {
      assert a + b == a;
    } else {
      assert (a + b)[..|a + b| - 1] == a + b[..|b| - 1];
      SuccessCountAppend(a, b[..|b| - 1]);
    }
  }

  /** A count over one position that changes: the others contribute as before. */
  lemma SuccessCountUpdate(groups: seq<PostGroup>, k: nat, g: PostGroup)
    requires k < |groups|
    ensures SuccessCount(groups[k := g]) ==
            SuccessCount(groups) - (if groups[k].status == Success then 1 else 0)
                                 + (if g.status == Success then 1 else 0)
  {
    var before, after := groups[..k], groups[k + 1..];
    assert groups == before + [groups[k]] + after;
    assert groups[k := g] == before + [g] + after;
    SuccessCountAppend(before + [groups[k]], after);
    SuccessCountAppend(before + [g], after);
    SuccessCountAppend(before, [groups[k]]);
    SuccessCountAppend(before, [g]);
  }

  /**
   * `Math.round(x)` for the non-negative rational x = num / den: the nearest
   * integer, halves rounded up.  The source computes x in floating point.
   */
  function RoundHalfUp(num: nat, den: nat): (r: nat)
    requires den > 0
    ensures 2 * den * r <= 2 * num + den < 2 * den * r + 2 * den
  {
    (2 * num + den) / (2 * den)
  }

  /** The progress percentage for `success` finished groups out of `total`. */
  function ProgressOf(success: nat, total: nat): (p: nat)
    requires success <= total
    ensures p <= 100
    ensures total == 0 ==> p == 0
    ensures success == 0 ==> p == 0
    ensures 0 < total && success == total ==> p == 100
  {
    var p := RoundHalfUp(100 * success, Max(total, 1));
    PercentBounds(success, total, p);
    p
  }

  /** The rounding facts behind ProgressOf's bounds. */
  lemma PercentBounds(success: nat, total: nat, p: nat)
    requires success <= total
    requires 2 * Max(total, 1) * p <= 200 * success + Max(total, 1) < 2 * Max(total, 1) * p + 2 * Max(total, 1)
    ensures p <= 100
    ensures success == 0 ==> p == 0
    ensures 0 < total && success == total ==> p == 100
  {
    var den := Max(total, 1);
    if p > 100 {
      MulLe(2 * den, 101, p);
    }
    if success == 0 && p > 0 {
      MulLe(2 * den, 1, p);
    }
    if success == total && total > 0 && p < 100 {
      MulLe(2 * total, p, 99);
    }
  }

  /** Multiplication by a natural number is monotone. */
  lemma MulLe(q: nat, a: nat, b: nat)
    requires a <= b
    ensures q * a <= q * b
  {
    assert q * b == q * a + q * (b - a);
  }

  /** The panel's `progress`: successful groups as a rounded percentage of all groups. */
  function Progress(groups: seq<PostGroup>): (p: nat)
    ensures p <= 100
    ensures |groups| == 0 ==> p == 0
    ensures 0 < |groups| && (forall k :: 0 <= k < |groups| ==> groups[k].status == Success) ==> p == 100
  {
    ProgressOf(SuccessCount(groups), |groups|)
  }

  /** More finished groups out of the same total never show less progress. */
  lemma ProgressMonotone(s1: nat, s2: nat, total: nat)
    requires s1 <= s2 <= total
    ensures ProgressOf(s1, total) <= ProgressOf(s2, total)
  {
    var den := Max(total, 1);
    var p1, p2 := ProgressOf(s1, total), ProgressOf(s2, total);
    assert 2 * den * p1 <= 200 * s1 + den;
    assert 200 * s2 + den < 2 * den * p2 + 2 * den;
    if p1 > p2 {
      MulLe(2 * den, p2 + 1, p1);
      MulLe(200, s1, s2);
    }
  }

  /**
   * The status labels the panel renders for one group: four independent
   * conditionals, one per status, each contributing its label or nothing.
   */
  function StatusLabels(s: Status): (labels: seq<string>)
    ensures |labels| == 1
  {
    (if s == Posting then ["投稿中..."] else [])
    + (if s == Success then ["成功"] else [])
    + (if s == Failed then ["失敗"] else [])
    + (if s == Pending then ["待機中"] else [])
  }

  /** Different statuses are told apart: the label determines the status. */
  lemma StatusLabelsInjective(s: Status, t: Status)
    ensures StatusLabels(s) == StatusLabels(t) ==> s == t
  {
    if StatusLabels(s) == StatusLabels(t) {
      assert StatusLabels(s)[0] == StatusLabels(t)[0];
    }
  }
}
