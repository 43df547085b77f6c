/**
 * The `useAutoPost` hook of src/hooks/useAutoPost.ts as an object whose
 * fields are the hook's state.  Every state update of the hook is an
 * assignment to a field; the pauses it waits for and the calls it makes to
 * the post collaborator are appended to two log fields, and the
 * collaborator's answers, the clock, the thumbnail maker and the id source
 * are parameters.
 */
module AutoPostHook {
  import opened Wrappers
  import opened StatusMonitor
  import opened Segmenter
  import opened History
  import opened Schedule

  class AutoPost {
    var isPosting: bool
    var groups: seq<PostGroup>
    var currentGroupIndex: nat
    var history: seq<HistoryItem>
    /** Every pause waited for, in milliseconds, in order. */
    var delays: seq<nat>
    /** Every call made to the post collaborator, in order. */
    var posts: seq<PostRequest>

    /** The hook's initial state; the history comes from storage (`saved`), decoded by `parse`. */
    constructor(saved: Option<string>, parse: string -> Option<seq<HistoryItem>>)
      ensures !isPosting && groups == [] && currentGroupIndex == 0
      ensures history == Loaded(saved, parse)
      ensures delays == [] && posts == []
    {
      isPosting := false;
      groups := [];
      currentGroupIndex := 0;
      history := Loaded(saved, parse);
      delays := [];
      posts := [];
    }

    /** `addToHistory`: the entry goes first and the history keeps its newest hundred. */
    method AddToHistory(item: HistoryItem)
      modifies this`history
      ensures history == Added(old(history), item)
    {
      history := Added(history, item);
    }

    /** `deleteHistory`: every entry with this id goes, the others stay in order. */
    method DeleteHistory(id: string)
      modifies this`history
      ensures history == Deleted(old(history), id)
    {
      history := Deleted(history, id);
    }

    /** `clearHistory`. */
    method ClearHistory()
      modifies this`history
      ensures history == Cleared()
    {
      history := [];
    }

    /**
     * One run of the body of the `for` loop of `processGroups` for group `i`
     * (lines 106-172).  It answers the index the body leaves behind (one
     * less on a retry, where the source decrements `i` before its `continue`)
     * and whether the body threw, which it does when that decrement makes
     * the backoff read `activeGroups[-1]`.  Its effect is `Attempt`'s,
     * with the loop's `i++` still to come.
     */
    method Pass(activeGroups: array<PostGroup>, i: nat, calls: nat, inp: Inputs, ghost s: Loop)
      returns (j: int, threw: bool, ghost recorded: seq<HistoryItem>)
      requires i < activeGroups.Length && Covers(inp.allImages, activeGroups.Length)
      requires s == Loop(i, activeGroups[..], history, delays, posts, calls, s.recorded)
      modifies this, activeGroups
      ensures -1 <= j <= i && (threw <==> Attempt(inp, s).Abort?)
      ensures Attempt(inp, s).after == Loop(j + 1, activeGroups[..], history, delays, posts, calls + 1, recorded)
      ensures groups == activeGroups[..] && currentGroupIndex == i
      ensures isPosting == old(isPosting)
    {
      currentGroupIndex := i;
      activeGroups[i] := activeGroups[i].(status := Posting, error := None);
      groups := activeGroups[..];

      var groupImages := Slice(inp.allImages, i * GroupSize, i * GroupSize + GroupSize);
      assert groupImages == Chunk(inp.allImages, i);
      var now := inp.clock(calls);
      var postBody := PostBody(inp.baseText, now);
      posts := posts + [PostRequest(i, postBody, groupImages)];
      j, threw, recorded := i, false, s.recorded;

      match inp.outcome(calls) {
      case Posted(postId, postUrl) =>
        recorded := Succeeded(activeGroups, i, inp, s, groupImages, now, postId, postUrl);
      case Threw(message) =>
        if activeGroups[i].retryCount < MaxRetries {
          j, threw := Retried(activeGroups, i, inp, s);
          // the `continue` after a retry, or the throw out of the loop
          return;
        }
        GaveUp(activeGroups, i, inp, s, message);
      }

      if i < activeGroups.Length - 1 {
        delays := delays + [InterGroupDelay];
      }
    }

    /**
     * The state inside the `try` block once the call for group `s.i` of
     * the loop state `s` has been made: the group is marked posting and
     * published, the request is logged and nothing else has changed.
     */
    ghost predicate Called(activeGroups: array<PostGroup>, inp: Inputs, s: Loop)
      reads this, activeGroups
    {
      && s.i < activeGroups.Length == |s.active| && Covers(inp.allImages, activeGroups.Length)
      && activeGroups[..] == s.active[s.i := s.active[s.i].(status := Posting, error := None)]
      && groups == activeGroups[..] && history == s.history && delays == s.delays
      && posts == s.posts + [PostRequest(s.i, PostBody(inp.baseText, inp.clock(s.calls)), Chunk(inp.allImages, s.i))]
    }

    /**
     * The success path of the `try` block (lines 132-144): the group is
     * marked `success` and its entry, with the post's id, text and URL and
     * the thumbnail of its first image, goes into the history.  What is left
     * is the pause and the `i++` of `Finished`.
     */
    method Succeeded(activeGroups: array<PostGroup>, i: nat, inp: Inputs, ghost s: Loop, groupImages: seq<ImageFile>,
                     now: Instant, postId: string, postUrl: string) returns (ghost recorded: seq<HistoryItem>)
      requires i == s.i && Called(activeGroups, inp, s) && groupImages == Chunk(inp.allImages, s.i) && now == inp.clock(s.calls)
      requires inp.outcome(s.calls) == Posted(postId, postUrl)
      modifies this`groups, this`history, activeGroups
      ensures Attempt(inp, s).after == Finished(Loop(s.i, activeGroups[..], history, delays, posts, s.calls + 1, recorded))
      ensures groups == activeGroups[..]
    {
      SuccessfulAttempt(inp, s);
      activeGroups[i] := activeGroups[i].(status := Success);
      groups := activeGroups[..];
      var item := HistoryItem(postId, PostBody(inp.baseText, now), now.iso, postUrl, inp.thumbnail(groupImages[0].file));
      AddToHistory(item);
      recorded := s.recorded + [item];
      assert activeGroups[..] == s.active[i := s.active[i].(status := Success, error := None)];
    }

    /**
     * The retry path of the `catch` block (lines 149-157): the count goes up
     * and the groups are published, the index is stepped back, and the
     * backoff is read from the group at the stepped-back index, which
     * throws when there is none.
     */
    method Retried(activeGroups: array<PostGroup>, i: nat, inp: Inputs, ghost s: Loop) returns (j: int, threw: bool)
      requires i == s.i && Called(activeGroups, inp, s)
      requires inp.outcome(s.calls).Threw? && activeGroups[s.i].retryCount < MaxRetries
      modifies this`groups, this`delays, activeGroups
      ensures j == s.i - 1 && (threw <==> Attempt(inp, s).Abort?)
      ensures Attempt(inp, s).after == Loop(j + 1, activeGroups[..], history, delays, posts, s.calls + 1, s.recorded)
      ensures groups == activeGroups[..]
    {
      activeGroups[i] := activeGroups[i].(retryCount := activeGroups[i].retryCount + 1);
      j, threw := i - 1, false;
      groups := activeGroups[..];
      assert activeGroups[..] == s.active[i := s.active[i].(status := Posting, error := None,
                                                            retryCount := s.active[i].retryCount + 1)];
      if j < 0 {
        // reading `activeGroups[-1].retryCount` throws out of the loop
        AbortingAttempt(inp, s);
        threw := true;
        return;
      }
      RetriedAttempt(inp, s);
      delays := delays + [Backoff(activeGroups[j].retryCount)];
    }

    /**
     * The give-up path of the `catch` block (lines 158-166): the group is
     * marked `failed` with the error's message or "Unknown error".  What is
     * left is the pause and the `i++` of `Finished`.
     */
    method GaveUp(activeGroups: array<PostGroup>, i: nat, inp: Inputs, ghost s: Loop, message: Option<string>)
      requires i == s.i && Called(activeGroups, inp, s)
      requires inp.outcome(s.calls) == Threw(message) && activeGroups[s.i].retryCount >= MaxRetries
      modifies this`groups, activeGroups
      ensures Attempt(inp, s).after == Finished(Loop(s.i, activeGroups[..], history, delays, posts, s.calls + 1, s.recorded))
      ensures groups == activeGroups[..]
    {
      ExhaustedAttempt(inp, s);
      activeGroups[i] := activeGroups[i].(status := Failed, error := Some(ErrorText(message)));
      groups := activeGroups[..];
      assert activeGroups[..] == s.active[i := s.active[i].(status := Failed, error := Some(ErrorText(message)))];
    }

    /**
     * `processGroups`: the posting loop.  Its whole effect is that of `Run`:
     * when the loop runs to its end `isPosting` is cleared and the index
     * rests on the last group; when the read of group -1 throws, the loop is
     * left with `isPosting` as it was and the index at 0.
     */
    method ProcessGroups(currentGroups: seq<PostGroup>, baseText: string, allImages: seq<ImageFile>,
                         outcome: nat -> PostOutcome, clock: nat -> Instant, thumbnail: nat -> string)
      requires Covers(allImages, |currentGroups|)
      modifies this
      ensures var r := Run(Inputs(baseText, allImages, outcome, clock, thumbnail),
                           Start(currentGroups, old(history), old(delays), old(posts)));
              && history == r.final.history && delays == r.final.delays && posts == r.final.posts
              && (currentGroups != [] ==> groups == r.final.active)
              && (currentGroups == [] ==> groups == old(groups) && currentGroupIndex == old(currentGroupIndex))
              && (r.Completed? ==> !isPosting)
              && (r.Completed? && currentGroups != [] ==> currentGroupIndex == |currentGroups| - 1)
              && (r.Aborted? ==> isPosting == old(isPosting) && currentGroupIndex == 0)
    {
      var inp := Inputs(baseText, allImages, outcome, clock, thumbnail);
      ghost var r0 := Run(inp, Start(currentGroups, history, delays, posts));
      var n := |currentGroups|;
      var activeGroups := new PostGroup[n](j requires 0 <= j < n => currentGroups[j]);
      assert activeGroups[..] == currentGroups;
      var i: int := 0;
      var calls: nat := 0;
      // the state of `Run` the loop is in
      ghost var st := Start(currentGroups, history, delays, posts);
      while i < activeGroups.Length
        invariant activeGroups.Length == n && 0 <= i <= n
        invariant st == Loop(i, activeGroups[..], history, delays, posts, calls, st.recorded)
        invariant Run(inp, st) == r0
        invariant isPosting == old(isPosting)
        invariant i == 0 ==> groups == old(groups) && currentGroupIndex == old(currentGroupIndex)
        invariant i > 0 ==> groups == activeGroups[..] && (currentGroupIndex == i - 1 || currentGroupIndex == i)
        invariant currentGroupIndex < n || i == 0
        decreases n - i, RetriesLeft(st)
      {
        ghost var s := st;
        var threw;
        ghost var recorded;
        i, threw, recorded := Pass(activeGroups, i, calls, inp, s);
        calls := calls + 1;
        if threw {
          return;
        }
        i := i + 1;
        st := Loop(i, activeGroups[..], history, delays, posts, calls, recorded);
      }
      isPosting := false;
    }

    /**
     * `startPosting`: nothing happens without images; otherwise the images
     * are cut into groups, posting is flagged and the loop runs over them.
     * The flag stays set exactly when the very first call fails, and when it
     * is cleared every group has been handled as `CompletedRun` describes.
     */
    method StartPosting(text: string, images: seq<ImageFile>, uuid: nat -> string,
                        outcome: nat -> PostOutcome, clock: nat -> Instant, thumbnail: nat -> string)
      modifies this
      ensures images == [] ==>
                && isPosting == old(isPosting) && groups == old(groups)
                && currentGroupIndex == old(currentGroupIndex) && history == old(history)
                && delays == old(delays) && posts == old(posts)
      ensures images != [] ==>
                var inp := Inputs(text, images, outcome, clock, thumbnail);
                var s0 := Start(Segment(images, uuid), old(history), old(delays), old(posts));
                var r := Run(inp, s0);
                && groups == r.final.active && history == r.final.history
                && delays == r.final.delays && posts == r.final.posts
                && (isPosting <==> outcome(0).Threw?)
                && (isPosting ==> currentGroupIndex == 0)
                && (!isPosting ==> currentGroupIndex == |groups| - 1 && Outcome(inp, s0, r.final))
                && EntriesInv(inp, r.final)
    {
      if |images| == 0 {
        return;
      }
      var initialGroups := CreateGroups(images, uuid);
      groups := initialGroups;
      currentGroupIndex := 0;
      isPosting := true;
      ghost var inp := Inputs(text, images, outcome, clock, thumbnail);
      ghost var s0 := Start(initialGroups, history, delays, posts);
      FirstFailureAborts(inp, initialGroups, history, delays, posts);
      RunKeepsEntries(inp, s0);
      if Run(inp, s0).Completed? {
        CompletedRun(inp, initialGroups, history, delays, posts, Run(inp, s0).final);
      }
      ProcessGroups(initialGroups, text, images, outcome, clock, thumbnail);
    }
  }
}
