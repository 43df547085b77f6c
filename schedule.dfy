/**
 * The posting loop of src/hooks/useAutoPost.ts (`processGroups`) as a
 * state machine over values: one `Attempt` per pass through the loop body,
 * `Run` for the whole loop.  Waiting is recorded as a log of requested
 * delays, calls to the post collaborator as a log of requests, and the
 * collaborator itself, the clock and the thumbnail maker are inputs.
 */
module Schedule {
  import opened Wrappers
  import opened StatusMonitor
  import opened Segmenter
  import opened History

  /** A group is retried while its count is below this. */
  const MaxRetries: nat := 5
  /** The pause between two groups, in milliseconds. */
  const InterGroupDelay: nat := 5000

  function Pow2(k: nat): (p: nat)
    ensures p >= 1
  {
    if k == 0 then 1 else 2 * Pow2(k - 1)
  }

  /** Powers of two other than one are even. */
  lemma Pow2Even(k: nat)
    ensures k > 0 ==> Pow2(k) % 2 == 0
  {
  }

  /** The exponential backoff `1000 * Math.pow(2, retryCount)`; never the inter-group pause. */
  function Backoff(retryCount: nat): (ms: nat)
    ensures ms >= 1000 && ms != InterGroupDelay
  {
    Pow2Even(retryCount);
    1000 * Pow2(retryCount)
  }

  /** What one call of the post collaborator did. `message` is the thrown value's `message`, if it has one. */
  datatype PostOutcome = Posted(postId: string, postUrl: string) | Threw(message: Option<string>)

  /** One reading of the clock: the `yyyy-MM-dd HH:mm:ss` rendering and the ISO-8601 one. */
  datatype Instant = Instant(formatted: string, iso: string)

  /** One call of the post collaborator: for which group, with which text and which image files. */
  datatype PostRequest = PostRequest(group: nat, body: string, images: seq<ImageFile>)

  /**
   * The inputs of one run.  The k-th call of the collaborator of this run
   * returns `outcome(k)` and is preceded by the clock reading `clock(k)`;
   * `thumbnail` stands for the thumbnail maker applied to a file.
   */
  datatype Inputs = Inputs(
    baseText: string,
    allImages: seq<ImageFile>,
    outcome: nat -> PostOutcome,
    clock: nat -> Instant,
    thumbnail: nat -> string)

  /** The text that is posted: the caption, a blank line and the time. */
  function PostBody(baseText: string, now: Instant): string {
    baseText + "\n\n" + now.formatted
  }

  /** `err.message || "Unknown error"` */
  function ErrorText(message: Option<string>): (e: string)
    ensures e != ""
    ensures message.Some? && message.value != "" ==> e == message.value
    ensures !(message.Some? && message.value != "") ==> e == "Unknown error"
  {
    if message.Some? && message.value != "" then message.value else "Unknown error"
  }

  /** There are enough images for every group: the j-th group's slice of all images is not empty. */
  predicate Covers(allImages: seq<ImageFile>, groupCount: nat) {
    groupCount <= NumGroups(|allImages|)
  }

  /**
   * The loop's state: the index `i`, the local copy of the groups, the history
   * as `addToHistory` leaves it, the delays and collaborator calls so far, the
   * number of calls this run made, and the history entries this run recorded.
   */
  datatype Loop = Loop(
    i: nat,
    active: seq<PostGroup>,
    history: seq<HistoryItem>,
    delays: seq<nat>,
    posts: seq<PostRequest>,
    calls: nat,
    recorded: seq<HistoryItem>)

  /** The state on entry to the loop. */
  function Start(groups: seq<PostGroup>, history: seq<HistoryItem>, delays: seq<nat>, posts: seq<PostRequest>): Loop {
    Loop(0, groups, history, delays, posts, 0, [])
  }

  /** One pass through the loop body: carry on with the next state, or the exception at line 156. */
  datatype Step = Next(after: Loop) | Abort(after: Loop)

  /** The end of the loop: it ran to its end, or the exception left it. */
  datatype RunEnd = Completed(final: Loop) | Aborted(final: Loop)

  /** How many more failures group `i` may have before it is given up. */
  function RetriesLeft(s: Loop): nat {
    if s.i < |s.active| && s.active[s.i].retryCount < MaxRetries then MaxRetries - s.active[s.i].retryCount else 0
  }

  /** Lines 169-172 and the `i++`: pause unless this was the last group, then move on. */
  function Finished(s: Loop): Loop
    requires s.i < |s.active|
  {
    s.(delays := if s.i < |s.active| - 1 then s.delays + [InterGroupDelay] else s.delays, i := s.i + 1)
  }

  /**
   * One pass through the body of the `for` loop for group `s.i`.  On a retry
   * the source decrements `i` before it reads `activeGroups[i].retryCount`
   * for the backoff, so the backoff is that of the group before, and for
   * group 0 the read of `activeGroups[-1]` throws out of the loop.
   */
  function Attempt(inp: Inputs, s: Loop): (step: Step)
    requires s.i < |s.active| && Covers(inp.allImages, |s.active|)
    ensures |step.after.active| == |s.active| && step.after.i <= |s.active|
    ensures step.Next? ==> s.i < step.after.i || (s.i == step.after.i && RetriesLeft(step.after) < RetriesLeft(s))
    ensures step.Abort? ==> s.i == 0
  {
    var i := s.i;
    var posting := s.active[i].(status := Posting, error := None);
    var active := s.active[i := posting];
    var groupImages := Chunk(inp.allImages, i);
    var now := inp.clock(s.calls);
    var postBody := PostBody(inp.baseText, now);
    var posts := s.posts + [PostRequest(i, postBody, groupImages)];
    match inp.outcome(s.calls)
    case Posted(postId, postUrl) =>
      var item := HistoryItem(postId, postBody, now.iso, postUrl, inp.thumbnail(groupImages[0].file));
      Next(Finished(Loop(i, active[i := posting.(status := Success)], Added(s.history, item),
                         s.delays, posts, s.calls + 1, s.recorded + [item])))
    case Threw(message) =>
      if posting.retryCount < MaxRetries then
        var retried := active[i := posting.(retryCount := posting.retryCount + 1)];
        if i == 0 then
          Abort(Loop(0, retried, s.history, s.delays, posts, s.calls + 1, s.recorded))
        else
          Next(Loop(i, retried, s.history, s.delays + [Backoff(retried[i - 1].retryCount)],
                    posts, s.calls + 1, s.recorded))
      else
        Next(Finished(Loop(i, active[i := posting.(status := Failed, error := Some(ErrorText(message)))],
                           s.history, s.delays, posts, s.calls + 1, s.recorded)))
  }

  /** The whole loop from state `s`. */
  function Run(inp: Inputs, s: Loop): (r: RunEnd)
    requires s.i <= |s.active| && Covers(inp.allImages, |s.active|)
    ensures |r.final.active| == |s.active|
    ensures r.Completed? ==> r.final.i == |s.active|
    ensures r.Aborted? ==> r.final.i == 0
    decreases |s.active| - s.i, RetriesLeft(s)
  {
    if s.i == |s.active| then Completed(s)
    else
      match Attempt(inp, s)
      case Next(t) => Run(inp, t)
      case Abort(t) => Aborted(t)
  }

  // ---------------------------------------------------------------- one pass, case by case

  /**
   * A successful call: the group becomes `success`, exactly one entry is
   * recorded, with the post id, the very text that was sent and the post URL,
   * the call carried the group's own slice of the images, and a 5 s pause
   * follows unless this was the last group.
   */
  lemma SuccessfulAttempt(inp: Inputs, s: Loop)
    requires s.i < |s.active| && Covers(inp.allImages, |s.active|)
    requires inp.outcome(s.calls).Posted?
    ensures var now, o := inp.clock(s.calls), inp.outcome(s.calls);
            var item := HistoryItem(o.postId, PostBody(inp.baseText, now), now.iso, o.postUrl,
                                    inp.thumbnail(Chunk(inp.allImages, s.i)[0].file));
            Attempt(inp, s) == Next(Loop(
              s.i + 1,
              s.active[s.i := s.active[s.i].(status := Success, error := None)],
              Added(s.history, item),
              s.delays + (if s.i < |s.active| - 1 then [InterGroupDelay] else []),
              s.posts + [PostRequest(s.i, PostBody(inp.baseText, now), Chunk(inp.allImages, s.i))],
              s.calls + 1,
              s.recorded + [item]))
  {
  }

  /**
   * A failed call of a group after the first with retries left: its count
   * goes up by one, the same index comes round again, no history entry is
   * made, and the only pause is the backoff, read from the group before.
   */
  lemma RetriedAttempt(inp: Inputs, s: Loop)
    requires 0 < s.i < |s.active| && Covers(inp.allImages, |s.active|)
    requires inp.outcome(s.calls).Threw? && s.active[s.i].retryCount < MaxRetries
    ensures Attempt(inp, s) == Next(Loop(
              s.i,
              s.active[s.i := s.active[s.i].(status := Posting, error := None, retryCount := s.active[s.i].retryCount + 1)],
              s.history,
              s.delays + [Backoff(s.active[s.i - 1].retryCount)],
              s.posts + [PostRequest(s.i, PostBody(inp.baseText, inp.clock(s.calls)), Chunk(inp.allImages, s.i))],
              s.calls + 1,
              s.recorded))
  {
  }

  /**
   * A failed call of group 0 with retries left: the count goes up and the
   * groups are published, then reading the backoff of group -1 throws; no
   * pause is taken and the loop is left.
   */
  lemma AbortingAttempt(inp: Inputs, s: Loop)
    requires s.i == 0 < |s.active| && Covers(inp.allImages, |s.active|)
    requires inp.outcome(s.calls).Threw? && s.active[0].retryCount < MaxRetries
    ensures Attempt(inp, s) == Abort(Loop(
              0,
              s.active[0 := s.active[0].(status := Posting, error := None, retryCount := s.active[0].retryCount + 1)],
              s.history,
              s.delays,
              s.posts + [PostRequest(0, PostBody(inp.baseText, inp.clock(s.calls)), Chunk(inp.allImages, 0))],
              s.calls + 1,
              s.recorded))
  {
  }

  /**
   * A failed call with no retries left: the group becomes `failed` with the
   * error's message or "Unknown error", and the loop moves on, with the 5 s
   * pause unless this was the last group.
   */
  lemma ExhaustedAttempt(inp: Inputs, s: Loop)
    requires s.i < |s.active| && Covers(inp.allImages, |s.active|)
    requires inp.outcome(s.calls).Threw? && s.active[s.i].retryCount >= MaxRetries
    ensures Attempt(inp, s) == Next(Loop(
              s.i + 1,
              s.active[s.i := s.active[s.i].(status := Failed, error := Some(ErrorText(inp.outcome(s.calls).message)))],
              s.history,
              s.delays + (if s.i < |s.active| - 1 then [InterGroupDelay] else []),
              s.posts + [PostRequest(s.i, PostBody(inp.baseText, inp.clock(s.calls)), Chunk(inp.allImages, s.i))],
              s.calls + 1,
              s.recorded))
  {
  }

  // ---------------------------------------------------------------- the whole loop

  /** How often `x` occurs in `xs`. */
  function Occurrences(xs: seq<nat>, x: nat): (c: nat)
    ensures c <= |xs|
  {
    if xs == [] then 0 else Occurrences(xs[..|xs| - 1], x) + (if xs[|xs| - 1] == x then 1 else 0)
  }

  /** A group the loop has finished with, in a run that started from fresh groups. */
  predicate Settled(g: PostGroup) {
    || (g.status == Success && g.retryCount <= MaxRetries)
    || (g.status == Failed && g.retryCount == MaxRetries && g.error.Some? && g.error.value != "")
  }

  /** The group under way: as it started, or posting after some failures. */
  predicate InFlight(g0: PostGroup, g: PostGroup) {
    g == g0 || (g.status == Posting && g.error == None && g.retryCount <= MaxRetries)
  }

  /** The k-th call of the run was for a group up to `upTo` and carried that group's images and a fresh time. */
  predicate PostFor(inp: Inputs, r: PostRequest, k: nat, upTo: nat, groupCount: nat) {
    r.group <= upTo && r.group < groupCount && r.images == Chunk(inp.allImages, r.group)
    && r.body == PostBody(inp.baseText, inp.clock(k))
  }

  /** How many 5 s pauses the loop has taken once it reached index `i` of `n`. */
  function PausesTaken(i: nat, n: nat): nat {
    if i < n || i == 0 then i else i - 1
  }

  /** The groups of a run from fresh groups `s0`, at state `s`. */
  ghost predicate GroupsInv(s0: Loop, s: Loop) {
    var n := |s0.active|;
    && AllFresh(s0.active)
    && |s.active| == n && s.i <= n
    // groups keep their identity and their images
    && (forall j :: 0 <= j < n ==> s.active[j].id == s0.active[j].id && s.active[j].images == s0.active[j].images)
    // the groups before i are finished, those after it untouched
    && (forall j :: 0 <= j < s.i ==> Settled(s.active[j]))
    && (forall j :: s.i < j < n ==> s.active[j] == s0.active[j])
    && (s.i < n ==> InFlight(s0.active[s.i], s.active[s.i]))
    // group 0 is only left by succeeding at once: any failure of it throws
    && (s.i == 0 < n ==> s.active[0] == s0.active[0])
    && (s.i > 0 ==> s.active[0].status == Success && s.active[0].retryCount == 0)
  }

  /** Finishing group `s.i` with a settled `g` keeps the group clauses. */
  lemma FinishedKeepsGroups(s0: Loop, s: Loop, t: Loop, g: PostGroup)
    requires GroupsInv(s0, s) && s.i < |s.active| && t.i == s.i + 1 && t.active == s.active[s.i := g]
    requires g.id == s.active[s.i].id && g.images == s.active[s.i].images && Settled(g)
    requires s.i == 0 ==> g.status == Success && g.retryCount == 0
    ensures GroupsInv(s0, t)
  {
  }

  /** One history entry per successful group, added in order. */
  ghost predicate HistoryInv(s0: Loop, s: Loop) {
    && s.i <= |s.active|
    && s.history == AddedAll(s0.history, s.recorded)
    && |s.recorded| == SuccessCount(s.active[..s.i])
  }

  /** `item` is the entry for the run's k-th call, which succeeded: its post id, the text sent, the time and the URL. */
  predicate EntryFor(inp: Inputs, item: HistoryItem, k: nat) {
    && inp.outcome(k).Posted?
    && item.id == inp.outcome(k).postId && item.postUrl == inp.outcome(k).postUrl
    && item.text == PostBody(inp.baseText, inp.clock(k)) && item.timestamp == inp.clock(k).iso
  }

  /** `item` is the entry of one of the first `calls` calls of the run. */
  ghost predicate EntryAmong(inp: Inputs, item: HistoryItem, calls: nat) {
    exists c: nat :: c < calls && EntryFor(inp, item, c)
  }

  /** Every entry the run recorded is that of one of its successful calls so far. */
  ghost predicate EntriesInv(inp: Inputs, s: Loop) {
    forall k :: 0 <= k < |s.recorded| ==> EntryAmong(inp, s.recorded[k], s.calls)
  }

  lemma EntryAmongLater(inp: Inputs, item: HistoryItem, calls: nat)
    requires EntryAmong(inp, item, calls)
    ensures EntryAmong(inp, item, calls + 1)
  {
    var c: nat :| c < calls && EntryFor(inp, item, c);
    assert c < calls + 1;
  }

  /** A call that records nothing keeps every entry's call. */
  lemma EntriesKept(inp: Inputs, s: Loop, t: Loop)
    requires EntriesInv(inp, s) && t.calls == s.calls + 1 && t.recorded == s.recorded
    ensures EntriesInv(inp, t)
  {
    forall k | 0 <= k < |t.recorded| ensures EntryAmong(inp, t.recorded[k], t.calls) {
      EntryAmongLater(inp, s.recorded[k], s.calls);
    }
  }

  /** A call that records its own entry keeps every entry's call. */
  lemma EntryAdded(inp: Inputs, s: Loop, t: Loop, item: HistoryItem)
    requires EntriesInv(inp, s) && t.calls == s.calls + 1 && t.recorded == s.recorded + [item]
    requires EntryFor(inp, item, s.calls)
    ensures EntriesInv(inp, t)
  {
    forall k | 0 <= k < |t.recorded| ensures EntryAmong(inp, t.recorded[k], t.calls) {
      if k < |s.recorded| {
        assert t.recorded[k] == s.recorded[k];
        EntryAmongLater(inp, s.recorded[k], s.calls);
      } else {
        assert t.recorded[k] == item && s.calls < t.calls;
      }
    }
  }

  /** One request per call, in group order, each with its group's images and a fresh time. */
  ghost predicate PostsInv(inp: Inputs, s0: Loop, s: Loop) {
    var p0 := |s0.posts|;
    && |s.posts| == p0 + s.calls && s.posts[..p0] == s0.posts
    && (var made := s.posts[p0..];
        && (forall k :: 0 <= k < |made| ==> PostFor(inp, made[k], k, s.i, |s0.active|))
        && (forall k1, k2 :: 0 <= k1 < k2 < |made| ==> made[k1].group <= made[k2].group))
  }

  /** One 5 s pause between each two finished groups (the backoffs are never 5 s). */
  ghost predicate DelaysInv(s0: Loop, s: Loop) {
    var d0 := |s0.delays|;
    && |s.delays| >= d0 && s.delays[..d0] == s0.delays
    && Occurrences(s.delays[d0..], InterGroupDelay) == PausesTaken(s.i, |s0.active|)
  }

  /** What holds of every state a run from fresh groups `s0` passes through. */
  ghost predicate Inv(inp: Inputs, s0: Loop, s: Loop) {
    && s0.i == 0 && s0.calls == 0 && s0.recorded == []
    && GroupsInv(s0, s) && HistoryInv(s0, s) && PostsInv(inp, s0, s) && DelaysInv(s0, s)
  }

  /** The loop's entry state satisfies the invariant. */
  lemma StartInv(inp: Inputs, groups: seq<PostGroup>, history: seq<HistoryItem>, delays: seq<nat>, posts: seq<PostRequest>)
    requires AllFresh(groups)
    ensures Inv(inp, Start(groups, history, delays, posts), Start(groups, history, delays, posts))
  {
    assert delays[|delays|..] == [];
    assert posts[|posts|..] == [];
  }

  /** The request log after one more call for group `s.i` still satisfies the invariant's request clauses. */
  lemma PostsKept(inp: Inputs, s0: Loop, s: Loop, t: Loop)
    requires PostsInv(inp, s0, s) && s.i < |s.active| == |s0.active| && s.i <= t.i
    requires t.calls == s.calls + 1
    requires t.posts == s.posts + [PostRequest(s.i, PostBody(inp.baseText, inp.clock(s.calls)), Chunk(inp.allImages, s.i))]
    ensures PostsInv(inp, s0, t)
  {
    var p0 := |s0.posts|;
    var before, made := s.posts[p0..], t.posts[p0..];
    assert made == before + [t.posts[|t.posts| - 1]];
    assert t.posts[..p0] == s.posts[..p0];
    forall k | 0 <= k < |made| ensures PostFor(inp, made[k], k, t.i, |s0.active|) {
      if k < |before| {
        assert made[k] == before[k];
      }
    }
  }

  lemma OccurrencesAppend(xs: seq<nat>, ys: seq<nat>, x: nat)
    requires |ys| <= 1
    ensures Occurrences(xs + ys, x) == Occurrences(xs, x) + Occurrences(ys, x)
  {
    if ys == [] {
      assert xs + ys == xs;
    } else {
      assert (xs + ys)[..|xs|] == xs;
      assert ys[..0] == [];
    }
  }

  /** The delay log after appending `extra` still counts the pauses taken at index `t.i`. */
  lemma DelaysKept(s0: Loop, s: Loop, t: Loop, extra: seq<nat>)
    requires DelaysInv(s0, s) && |extra| <= 1 && t.delays == s.delays + extra
    requires PausesTaken(s.i, |s0.active|) + Occurrences(extra, InterGroupDelay) == PausesTaken(t.i, |s0.active|)
    ensures DelaysInv(s0, t)
  {
    var d0 := |s0.delays|;
    assert t.delays[..d0] == s.delays[..d0];
    assert t.delays[d0..] == s.delays[d0..] + extra;
    OccurrencesAppend(s.delays[d0..], extra, InterGroupDelay);
  }

  /** Groups before `i` keep counting as they did when the group at `i` changes. */
  lemma SuccessPrefixUnchanged(a: seq<PostGroup>, i: nat, g: PostGroup)
    requires i < |a|
    ensures a[i := g][..i] == a[..i]
    ensures SuccessCount(a[i := g][..i + 1]) == SuccessCount(a[..i]) + (if g.status == Success then 1 else 0)
  {
    assert a[i := g][..i + 1][..i] == a[..i];
  }

  /** Finishing group `s.i` with a success keeps the group clauses. */
  lemma SucceedKeepsGroups(s0: Loop, s: Loop, t: Loop)
    requires GroupsInv(s0, s) && s.i < |s.active|
    requires t.i == s.i + 1
    requires t.active == s.active[s.i := s.active[s.i].(status := Success, error := None)]
    ensures GroupsInv(s0, t)
  {
    assert s.i == 0 ==> s.active[0].retryCount == 0;
    FinishedKeepsGroups(s0, s, t, t.active[s.i]);
  }

  /** Recording one more entry for a successful group `s.i` keeps the history clauses. */
  lemma SucceedKeepsHistory(s0: Loop, s: Loop, t: Loop, item: HistoryItem)
    requires HistoryInv(s0, s) && s.i < |s.active| && t.i == s.i + 1
    requires t.active == s.active[s.i := s.active[s.i].(status := Success, error := None)]
    requires t.history == Added(s.history, item) && t.recorded == s.recorded + [item]
    ensures HistoryInv(s0, t)
  {
    SuccessPrefixUnchanged(s.active, s.i, t.active[s.i]);
    assert t.recorded[..|t.recorded| - 1] == s.recorded;
  }

  /** Posting group `s.i`, as SuccessfulAttempt describes it, keeps the invariant. */
  lemma SucceedKeepsInv(inp: Inputs, s0: Loop, s: Loop, t: Loop, item: HistoryItem)
    requires s.i < |s.active| && Inv(inp, s0, s)
    requires t.i == s.i + 1
    requires t.active == s.active[s.i := s.active[s.i].(status := Success, error := None)]
    requires t.history == Added(s.history, item) && t.recorded == s.recorded + [item] && t.calls == s.calls + 1
    requires t.delays == s.delays + (if s.i < |s.active| - 1 then [InterGroupDelay] else [])
    requires t.posts == s.posts + [PostRequest(s.i, PostBody(inp.baseText, inp.clock(s.calls)), Chunk(inp.allImages, s.i))]
    ensures Inv(inp, s0, t)
  {
    SucceedKeepsGroups(s0, s, t);
    PostsKept(inp, s0, s, t);
    SucceedKeepsHistory(s0, s, t, item);
    DelaysKept(s0, s, t, if s.i < |s.active| - 1 then [InterGroupDelay] else []);
  }

  /** A successful call keeps the invariant. */
  lemma SuccessKeepsInv(inp: Inputs, s0: Loop, s: Loop)
    requires s.i < |s.active| && Covers(inp.allImages, |s.active|) && Inv(inp, s0, s)
    requires inp.outcome(s.calls).Posted?
    ensures Inv(inp, s0, Attempt(inp, s).after)
  {
    SuccessfulAttempt(inp, s);
    var now, o := inp.clock(s.calls), inp.outcome(s.calls);
    var item := HistoryItem(o.postId, PostBody(inp.baseText, now), now.iso, o.postUrl,
                            inp.thumbnail(Chunk(inp.allImages, s.i)[0].file));
    SucceedKeepsInv(inp, s0, s, Attempt(inp, s).after, item);
  }

  /** A retried pass keeps the invariant. */
  lemma RetryKeepsInv(inp: Inputs, s0: Loop, s: Loop)
    requires 0 < s.i < |s.active| && Covers(inp.allImages, |s.active|) && Inv(inp, s0, s)
    requires inp.outcome(s.calls).Threw? && s.active[s.i].retryCount < MaxRetries
    ensures Inv(inp, s0, Attempt(inp, s).after)
  {
    var t := Attempt(inp, s).after;
    RetriedAttempt(inp, s);
    PostsKept(inp, s0, s, t);
    SuccessPrefixUnchanged(s.active, s.i, t.active[s.i]);
    DelaysKept(s0, s, t, [Backoff(s.active[s.i - 1].retryCount)]);
  }

  /** Giving up group `s.i` after its retries keeps the group clauses. */
  lemma GiveUpKeepsGroups(s0: Loop, s: Loop, t: Loop, message: Option<string>)
    requires GroupsInv(s0, s) && s.i < |s.active| && s.active[s.i].retryCount >= MaxRetries
    requires t.i == s.i + 1
    requires t.active == s.active[s.i := s.active[s.i].(status := Failed, error := Some(ErrorText(message)))]
    ensures GroupsInv(s0, t)
  {
    assert s0.active[s.i].retryCount == 0;
    FinishedKeepsGroups(s0, s, t, t.active[s.i]);
  }

  /** Giving up group `s.i`, as ExhaustedAttempt describes it, keeps the invariant. */
  lemma GiveUpKeepsInv(inp: Inputs, s0: Loop, s: Loop, t: Loop, message: Option<string>)
    requires s.i < |s.active| && Inv(inp, s0, s) && s.active[s.i].retryCount >= MaxRetries
    requires t.i == s.i + 1
    requires t.active == s.active[s.i := s.active[s.i].(status := Failed, error := Some(ErrorText(message)))]
    requires t.history == s.history && t.recorded == s.recorded && t.calls == s.calls + 1
    requires t.delays == s.delays + (if s.i < |s.active| - 1 then [InterGroupDelay] else [])
    requires t.posts == s.posts + [PostRequest(s.i, PostBody(inp.baseText, inp.clock(s.calls)), Chunk(inp.allImages, s.i))]
    ensures Inv(inp, s0, t)
  {
    GiveUpKeepsGroups(s0, s, t, message);
    PostsKept(inp, s0, s, t);
    SuccessPrefixUnchanged(s.active, s.i, t.active[s.i]);
    DelaysKept(s0, s, t, if s.i < |s.active| - 1 then [InterGroupDelay] else []);
  }
  lemma ExhaustedKeepsInv(inp: Inputs, s0: Loop, s: Loop)
    requires s.i < |s.active| && Covers(inp.allImages, |s.active|) && Inv(inp, s0, s)
    requires inp.outcome(s.calls).Threw? && s.active[s.i].retryCount >= MaxRetries
    ensures Inv(inp, s0, Attempt(inp, s).after)
  {
    ExhaustedAttempt(inp, s);
    GiveUpKeepsInv(inp, s0, s, Attempt(inp, s).after, inp.outcome(s.calls).message);
  }

  /** Every pass through the loop body that does not throw keeps the invariant. */
  lemma AttemptKeepsInv(inp: Inputs, s0: Loop, s: Loop)
    requires s.i < |s.active| && Covers(inp.allImages, |s.active|) && Inv(inp, s0, s)
    requires Attempt(inp, s).Next?
    ensures Inv(inp, s0, Attempt(inp, s).after)
  {
    if inp.outcome(s.calls).Posted? {
      SuccessKeepsInv(inp, s0, s);
    } else if s.active[s.i].retryCount >= MaxRetries {
      ExhaustedKeepsInv(inp, s0, s);
    } else {
      RetryKeepsInv(inp, s0, s);
    }
  }

  /** The invariant holds of the state the loop ends in, when it runs to its end. */
  lemma {:induction false} RunKeepsInv(inp: Inputs, s0: Loop, s: Loop)
    requires s.i <= |s.active| && Covers(inp.allImages, |s.active|) && Inv(inp, s0, s)
    requires Run(inp, s).Completed?
    ensures Inv(inp, s0, Run(inp, s).final) && Run(inp, s).final.i == |s.active|
    decreases |s.active| - s.i, RetriesLeft(s)
  {
    if s.i < |s.active| {
      AttemptKeepsInv(inp, s0, s);
      RunKeepsInv(inp, s0, Attempt(inp, s).after);
    }
  }

  /** Once past group 0 the loop cannot throw any more: it always runs to its end. */
  lemma {:induction false} NoAbortAfterFirstGroup(inp: Inputs, s: Loop)
    requires 0 < s.i <= |s.active| && Covers(inp.allImages, |s.active|)
    ensures Run(inp, s).Completed?
    decreases |s.active| - s.i, RetriesLeft(s)
  {
    if s.i < |s.active| {
      NoAbortAfterFirstGroup(inp, Attempt(inp, s).after);
    }
  }

  /**
   * A run from fresh groups throws exactly when its very first call fails.
   * It then leaves group 0 posting with one retry counted, no pause taken
   * and no history entry made.
   */
  lemma FirstFailureAborts(inp: Inputs, groups: seq<PostGroup>, history: seq<HistoryItem>,
                           delays: seq<nat>, posts: seq<PostRequest>)
    requires AllFresh(groups) && 0 < |groups| && Covers(inp.allImages, |groups|)
    ensures Run(inp, Start(groups, history, delays, posts)).Aborted? <==> inp.outcome(0).Threw?
    ensures Run(inp, Start(groups, history, delays, posts)).Aborted? ==>
              Run(inp, Start(groups, history, delays, posts)).final == Loop(
                0,
                groups[0 := groups[0].(status := Posting, retryCount := 1)],
                history,
                delays,
                posts + [PostRequest(0, PostBody(inp.baseText, inp.clock(0)), Chunk(inp.allImages, 0))],
                1,
                [])
  {
    var s := Start(groups, history, delays, posts);
    if inp.outcome(0).Posted? {
      SuccessfulAttempt(inp, s);
      NoAbortAfterFirstGroup(inp, Attempt(inp, s).after);
    } else {
      AbortingAttempt(inp, s);
    }
  }

  /** Every pass keeps each recorded entry tied to a successful call. */
  lemma AttemptKeepsEntries(inp: Inputs, s: Loop)
    requires s.i < |s.active| && Covers(inp.allImages, |s.active|) && EntriesInv(inp, s)
    ensures EntriesInv(inp, Attempt(inp, s).after)
  {
    var t := Attempt(inp, s).after;
    match inp.outcome(s.calls) {
      case Posted(_, _) =>
        SuccessfulAttempt(inp, s);
        EntryAdded(inp, s, t, t.recorded[|t.recorded| - 1]);
      case Threw(_) =>
        if s.active[s.i].retryCount >= MaxRetries {
          ExhaustedAttempt(inp, s);
        } else if s.i == 0 {
          AbortingAttempt(inp, s);
        } else {
          RetriedAttempt(inp, s);
        }
        EntriesKept(inp, s, t);
    }
  }

  /**
   * However the loop ends, each entry it recorded is that of one of its
   * successful calls: the post id and URL that call answered, the text it
   * sent and the time read just before it.
   */
  lemma {:induction false} RunKeepsEntries(inp: Inputs, s: Loop)
    requires s.i <= |s.active| && Covers(inp.allImages, |s.active|) && EntriesInv(inp, s)
    ensures EntriesInv(inp, Run(inp, s).final)
    decreases |s.active| - s.i, RetriesLeft(s)
  {
    if s.i < |s.active| {
      AttemptKeepsEntries(inp, s);
      if Attempt(inp, s).Next? {
        RunKeepsEntries(inp, Attempt(inp, s).after);
      }
    }
  }

  /** What the invariant says of a state in which every group has been handled. */
  ghost predicate Outcome(inp: Inputs, s0: Loop, f: Loop) {
    var n := |s0.active|;
    var p0 := |s0.posts|;
    var d0 := |s0.delays|;
    && |f.active| == n
    && (forall j :: 0 <= j < n ==> f.active[j].id == s0.active[j].id && f.active[j].images == s0.active[j].images)
    && (forall j :: 0 <= j < n ==>
          || (f.active[j].status == Success && f.active[j].retryCount <= MaxRetries)
          || (f.active[j].status == Failed && f.active[j].retryCount == MaxRetries
              && f.active[j].error.Some? && f.active[j].error.value != ""))
    && (0 < n ==> f.active[0].status == Success && f.active[0].retryCount == 0)
    && f.history == AddedAll(s0.history, f.recorded)
    && |f.recorded| == SuccessCount(f.active)
    && |f.delays| >= d0 && f.delays[..d0] == s0.delays
    && (0 < n ==> Occurrences(f.delays[d0..], InterGroupDelay) == n - 1)
    && |f.posts| == p0 + f.calls && f.posts[..p0] == s0.posts
    && (forall k :: p0 <= k < |f.posts| ==>
          f.posts[k].group < n && f.posts[k].images == Chunk(inp.allImages, f.posts[k].group)
          && f.posts[k].body == PostBody(inp.baseText, inp.clock(k - p0)))
  }

  /** The invariant at the loop's exit gives the outcome. */
  lemma InvAtExit(inp: Inputs, s0: Loop, f: Loop)
    requires Inv(inp, s0, f) && f.i == |f.active|
    ensures Outcome(inp, s0, f)
  {
    assert f.active[..|f.active|] == f.active;
    forall j | 0 <= j < |f.active|
      ensures || (f.active[j].status == Success && f.active[j].retryCount <= MaxRetries)
              || (f.active[j].status == Failed && f.active[j].retryCount == MaxRetries
                  && f.active[j].error.Some? && f.active[j].error.value != "")
    {
      assert Settled(f.active[j]);
    }
    var p0 := |s0.posts|;
    forall k | p0 <= k < |f.posts|
      ensures f.posts[k].group < |f.active| && f.posts[k].images == Chunk(inp.allImages, f.posts[k].group)
              && f.posts[k].body == PostBody(inp.baseText, inp.clock(k - p0))
    {
      assert f.posts[k] == f.posts[p0..][k - p0];
      assert PostFor(inp, f.posts[p0..][k - p0], k - p0, f.i, |s0.active|);
    }
  }

  /**
   * What a run from fresh groups that reaches its end leaves: every group
   * succeeded (within five retries) or failed (after exactly five, with a
   * message); group 0 succeeded at once; one history entry per successful
   * group; one 5 s pause between each two groups; every call carried its
   * group's slice of the images and a body stamped with its own time.
   */
  lemma CompletedRun(inp: Inputs, groups: seq<PostGroup>, history: seq<HistoryItem>,
                     delays: seq<nat>, posts: seq<PostRequest>, f: Loop)
    requires AllFresh(groups) && Covers(inp.allImages, |groups|)
    requires Run(inp, Start(groups, history, delays, posts)) == Completed(f)
    ensures f.i == |groups| && Outcome(inp, Start(groups, history, delays, posts), f)
    ensures EntriesInv(inp, f)
  {
    var s0 := Start(groups, history, delays, posts);
    StartInv(inp, groups, history, delays, posts);
    RunKeepsInv(inp, s0, s0);
    InvAtExit(inp, s0, f);
    RunKeepsEntries(inp, s0);
  }

  // ---------------------------------------------------------------- the loop with the backoff read corrected

  /**
   * One pass as evidently intended: on a retry the backoff is read from the
   * group being retried, after its count went up, and nothing throws.
   * Everything else is as in Attempt.
   */
  function CorrectedAttempt(inp: Inputs, s: Loop): (t: Loop)
    requires s.i < |s.active| && Covers(inp.allImages, |s.active|)
    ensures |t.active| == |s.active| && t.i <= |s.active|
    ensures s.i < t.i || (s.i == t.i && RetriesLeft(t) < RetriesLeft(s))
  {
    match Attempt(inp, s)
    case Abort(t) => t.(delays := t.delays + [Backoff(t.active[t.i].retryCount)])
    case Next(t) => if t.i == s.i then t.(delays := s.delays + [Backoff(t.active[t.i].retryCount)]) else t
  }

  /** The corrected loop always runs to its end. */
  function CorrectedRun(inp: Inputs, s: Loop): (f: Loop)
    requires s.i <= |s.active| && Covers(inp.allImages, |s.active|)
    ensures f.i == |f.active| == |s.active|
    decreases |s.active| - s.i, RetriesLeft(s)
  {
    if s.i == |s.active| then s else CorrectedRun(inp, CorrectedAttempt(inp, s))
  }

  /** In the corrected loop every failure with retries left waits 1000 * 2^(the new count) ms, group 0 included. */
  lemma CorrectedRetry(inp: Inputs, s: Loop)
    requires s.i < |s.active| && Covers(inp.allImages, |s.active|)
    requires inp.outcome(s.calls).Threw? && s.active[s.i].retryCount < MaxRetries
    ensures CorrectedAttempt(inp, s) == Loop(
              s.i,
              s.active[s.i := s.active[s.i].(status := Posting, error := None, retryCount := s.active[s.i].retryCount + 1)],
              s.history,
              s.delays + [Backoff(s.active[s.i].retryCount + 1)],
              s.posts + [PostRequest(s.i, PostBody(inp.baseText, inp.clock(s.calls)), Chunk(inp.allImages, s.i))],
              s.calls + 1,
              s.recorded)
  {
    if s.i == 0 {
      AbortingAttempt(inp, s);
    } else {
      RetriedAttempt(inp, s);
    }
  }

  // ---------------------------------------------------------------- worked runs

  /** Five images, every call succeeds: two groups, both posted, two entries, one 5 s pause. */
  lemma FiveImagesAllPosted(inp: Inputs, uuid: nat -> string, history: seq<HistoryItem>,
                            delays: seq<nat>, posts: seq<PostRequest>)
    requires |inp.allImages| == 5 && inp.outcome(0).Posted? && inp.outcome(1).Posted?
    ensures var groups := Segment(inp.allImages, uuid);
            && |groups| == 2 && Covers(inp.allImages, |groups|)
            && Run(inp, Start(groups, history, delays, posts)).Completed?
            && var f := Run(inp, Start(groups, history, delays, posts)).final;
               && f.active[0].status == Success && f.active[1].status == Success
               && |f.recorded| == 2 && f.delays == delays + [InterGroupDelay]
               && |f.posts| == |posts| + 2
               && |f.posts[|posts|].images| == 4 && |f.posts[|posts| + 1].images| == 1
  {
    var groups := Segment(inp.allImages, uuid);
    assert |groups| == 2;
    var s0 := Start(groups, history, delays, posts);
    SuccessfulAttempt(inp, s0);
    var s1 := Attempt(inp, s0).after;
    SuccessfulAttempt(inp, s1);
    var s2 := Attempt(inp, s1).after;
    assert Run(inp, s0) == Run(inp, s1) == Run(inp, s2) == Completed(s2);
  }

  /**
   * As written: group 1 fails once, then succeeds.  Its backoff is read from
   * group 0, whose count is 0, so the loop waits 1000 ms rather than 2000 ms.
   */
  lemma SecondGroupBackoffFromFirst(inp: Inputs, groups: seq<PostGroup>, history: seq<HistoryItem>,
                                    delays: seq<nat>, posts: seq<PostRequest>)
    requires AllFresh(groups) && |groups| == 2 && Covers(inp.allImages, 2)
    requires inp.outcome(0).Posted? && inp.outcome(1).Threw? && inp.outcome(2).Posted?
    ensures Run(inp, Start(groups, history, delays, posts)).Completed?
    ensures var f := Run(inp, Start(groups, history, delays, posts)).final;
            && f.active[1].status == Success && f.active[1].retryCount == 1
            && f.delays == delays + [InterGroupDelay, 1000]
  {
    var s0 := Start(groups, history, delays, posts);
    SuccessfulAttempt(inp, s0);
    var s1 := Attempt(inp, s0).after;
    RetriedAttempt(inp, s1);
    var s2 := Attempt(inp, s1).after;
    SuccessfulAttempt(inp, s2);
    var s3 := Attempt(inp, s2).after;
    assert Run(inp, s0) == Run(inp, s1) == Run(inp, s2) == Run(inp, s3) == Completed(s3);
  }

  /**
   * As written: a single group that fails twice and would then succeed.  The
   * first failure already throws: the run ends with the group left posting,
   * one retry counted and nothing in the history.
   */
  lemma SingleGroupFirstFailureAborts(inp: Inputs, groups: seq<PostGroup>, history: seq<HistoryItem>,
                                      delays: seq<nat>, posts: seq<PostRequest>)
    requires AllFresh(groups) && |groups| == 1 && Covers(inp.allImages, 1)
    requires inp.outcome(0).Threw? && inp.outcome(1).Threw? && inp.outcome(2).Posted?
    ensures Run(inp, Start(groups, history, delays, posts)).Aborted?
    ensures var f := Run(inp, Start(groups, history, delays, posts)).final;
            && f.active[0].status == Posting && f.active[0].retryCount == 1
            && f.history == history && f.recorded == [] && f.delays == delays
  {
    FirstFailureAborts(inp, groups, history, delays, posts);
  }

  /** Corrected: group 1 failing once waits 1000 * 2^1 ms, its own new count. */
  lemma CorrectedSecondGroupBackoff(inp: Inputs, groups: seq<PostGroup>, history: seq<HistoryItem>,
                                    delays: seq<nat>, posts: seq<PostRequest>)
    requires AllFresh(groups) && |groups| == 2 && Covers(inp.allImages, 2)
    requires inp.outcome(0).Posted? && inp.outcome(1).Threw? && inp.outcome(2).Posted?
    ensures var f := CorrectedRun(inp, Start(groups, history, delays, posts));
            && f.active[1].status == Success && f.active[1].retryCount == 1
            && f.delays == delays + [InterGroupDelay, 2000]
  {
    var s0 := Start(groups, history, delays, posts);
    SuccessfulAttempt(inp, s0);
    var s1 := CorrectedAttempt(inp, s0);
    CorrectedRetry(inp, s1);
    var s2 := CorrectedAttempt(inp, s1);
    SuccessfulAttempt(inp, s2);
    var s3 := CorrectedAttempt(inp, s2);
    assert CorrectedRun(inp, s0) == CorrectedRun(inp, s1) == CorrectedRun(inp, s2) == CorrectedRun(inp, s3) == s3;
  }

  /**
   * Corrected: a single group that fails twice and then succeeds ends
   * successful with count 2, after backoffs of 1000 * 2^1 and 1000 * 2^2 ms,
   * with one history entry.
   */
  lemma CorrectedSingleGroupRetries(inp: Inputs, groups: seq<PostGroup>, history: seq<HistoryItem>,
                                    delays: seq<nat>, posts: seq<PostRequest>)
    requires AllFresh(groups) && |groups| == 1 && Covers(inp.allImages, 1)
    requires inp.outcome(0).Threw? && inp.outcome(1).Threw? && inp.outcome(2).Posted?
    ensures var f := CorrectedRun(inp, Start(groups, history, delays, posts));
            && f.active[0].status == Success && f.active[0].retryCount == 2
            && f.delays == delays + [2000, 4000] && |f.recorded| == 1
  {
    var s0 := Start(groups, history, delays, posts);
    CorrectedRetry(inp, s0);
    var s1 := CorrectedAttempt(inp, s0);
    CorrectedRetry(inp, s1);
    var s2 := CorrectedAttempt(inp, s1);
    SuccessfulAttempt(inp, s2);
    var s3 := CorrectedAttempt(inp, s2);
    assert CorrectedRun(inp, s0) == CorrectedRun(inp, s1) == CorrectedRun(inp, s2) == CorrectedRun(inp, s3) == s3;
  }
}
