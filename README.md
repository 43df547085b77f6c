# Batch image posting: a Dafny model

This project models the core of a small web app that posts a large set of
images to X (Twitter). The app cuts the images into groups of four. It posts
each group as one tweet, with the caption and a timestamp, waits 5 s between
groups, and retries a failed group with exponential backoff. It also keeps a
history of the last hundred posts. The modelled parts are:

- `src/hooks/useAutoPost.ts`, the posting hook. Its React state is the class
  `AutoPostHook.AutoPost`, whose fields are `isPosting`, `groups`,
  `currentGroupIndex` and `history`, plus two logs:
  - `delays`, every pause waited for, in milliseconds;
  - `posts`, every call made to the post collaborator.

  The loop of `processGroups` is written twice:
  - as a `while` loop over an array, with the source's `i--` kept literally;
  - as a state machine over values (`Schedule.Attempt` for one pass,
    `Schedule.Run` for the whole loop).

  The loop is proved equal to the state machine. The state machine's
  properties are proved as lemmas.
- `src/components/StatusMonitor.tsx`: the group record, the success count,
  the progress percentage and the status labels.
- `api/post.ts`, the serverless endpoint. It runs three checks in order, on
  the HTTP method, the request body and the credentials. It then prepares
  each image (MIME detection, upload type, stripping the data-URL prefix) and
  shapes the JSON responses.

The collaborators the model cannot see are parameters, indexed by the number
of calls made so far:

- the post collaborator's answer to the k-th call (`outcome`);
- the k-th reading of the clock (`clock`);
- the thumbnail made from an image (`thumbnail`);
- the j-th `crypto.randomUUID()` (`uuid`);
- the history string read from storage (`saved`) and its decoder (`parse`).

The code's own comments state what the retry is meant to do: stay on the
same index (`useAutoPost.ts:154`) and wait an exponential backoff
(`useAutoPost.ts:156`) of `1000 × 2^count`, with the retried group's new
count, for up to five retries. The model follows the code as written.

The code decrements `i` before it reads `activeGroups[i].retryCount` for the
backoff. So a retry of group `i > 0` waits according to group `i - 1`'s count.
A failure of group 0 reads `activeGroups[-1]` and throws out of the loop.
`Schedule.Run` models that as its `Aborted` outcome, and
`AutoPostHook.AutoPost.ProcessGroups` and `AutoPostHook.AutoPost.StartPosting`
state that the flag `isPosting` is then left set. The intended behaviour is modelled next to it under
"## Findings".

The two regular expressions of `api/post.ts:47` and `api/post.ts:56` match the
same prefix. Both are modelled by one matcher, `PostHandler.DataUrlWord`.

## Model

| member | source | states |
|---|---|---|
| StatusMonitor.SuccessCount | src/components/StatusMonitor.tsx:37 | the count is at most the number of groups; it equals it exactly when every group succeeded, and is 0 exactly when none did |
| StatusMonitor.SuccessCountUpdate | src/components/StatusMonitor.tsx:37 | changing one group changes the count only by that group's own success |
| StatusMonitor.RoundHalfUp | src/components/StatusMonitor.tsx:38 | `Math.round` of a non-negative fraction: the result is within one half of it, with halves rounded up |
| StatusMonitor.ProgressOf | src/components/StatusMonitor.tsx:38 | the percentage lies between 0 and 100; it is 0 with no groups or no successes and 100 when all groups succeeded |
| StatusMonitor.Progress | src/components/StatusMonitor.tsx:37-38 | the panel's progress over a group list: between 0 and 100, 0 for no groups, 100 when every group succeeded |
| StatusMonitor.ProgressMonotone | src/components/StatusMonitor.tsx:37-38 | more successes out of the same total never show less progress |
| StatusMonitor.StatusLabels | src/components/StatusMonitor.tsx:86-89 | the four conditionals render exactly one label for every status |
| StatusMonitor.StatusLabelsInjective | src/components/StatusMonitor.tsx:86-89 | different statuses render different labels |
| Segmenter.Slice | src/hooks/useAutoPost.ts:85 | `Array.prototype.slice` with the end clamped to the length: the length, and every element taken from the given offset |
| Segmenter.NumGroups | src/hooks/useAutoPost.ts:84 | the number of passes of the step-4 loop: the least g with 4g at least the image count |
| Segmenter.Segment | src/hooks/useAutoPost.ts:82-94 | the groups are ceil(n/4) pending groups with retry count 0 and no error; there are none exactly when there are no images; every group but the last holds 4 images and the last holds 1 to 4; group j gets the j-th id |
| Segmenter.SegmentShowsChunks | src/hooks/useAutoPost.ts:85-88 | group j shows the previews of exactly the images posted for it (`allImages.slice(4j, 4j+4)`), and there are 1 to 4 of them |
| Segmenter.SegmentPreservesOrder | src/hooks/useAutoPost.ts:84-91 | the groups read in order give back every preview in the original order, none lost or repeated |
| Segmenter.CreateGroups | src/hooks/useAutoPost.ts:82-94 | the loop builds exactly the groups of `Segment` |
| History.Added | src/hooks/useAutoPost.ts:67-72 | the new entry comes first, followed by the previous entries in order, and the log is cut to at most 100 (`MAX_HISTORY`, line 10) |
| History.AddedAllKeepsNewest | src/hooks/useAutoPost.ts:67-72 | adding items one by one leaves the newest entries first, followed by the earlier log, cut to 100 |
| History.AddedManyForgetsOlder | src/hooks/useAutoPost.ts:67-72 | after at least 100 additions only the newest 100 remain, whatever was there before |
| History.Deleted | src/hooks/useAutoPost.ts:74-76 | no remaining entry has the id, every remaining entry was there before, and the log does not grow |
| History.DeletedAppend | src/hooks/useAutoPost.ts:74-76 | the filter distributes over concatenation (the order is kept) |
| History.DeletedKeepsOthers | src/hooks/useAutoPost.ts:74-76 | every entry with another id survives |
| History.DeletedAbsent | src/hooks/useAutoPost.ts:74-76 | deleting an id that is not there changes nothing |
| History.DeletedIdempotent | src/hooks/useAutoPost.ts:74-76 | deleting twice is deleting once |
| History.Cleared | src/hooks/useAutoPost.ts:78-80 | the cleared log is empty |
| History.Loaded | src/hooks/useAutoPost.ts:50-60 | no saved value or an empty one gives an empty history; a value that parses gives what it parses to; one that does not parse gives an empty history |
| Schedule.Backoff | src/hooks/useAutoPost.ts:156 | the backoff is at least 1 s and never equals the 5 s pause between groups |
| Schedule.ErrorText | src/hooks/useAutoPost.ts:163 | `err.message \|\| "Unknown error"`: a non-empty message is kept, a missing or empty one gives "Unknown error", and the text is never empty |
| Schedule.Attempt | src/hooks/useAutoPost.ts:105-172 | one pass keeps the number of groups; a pass that goes on either moves to a later group or uses up one retry of this group; only group 0 can throw |
| Schedule.Run | src/hooks/useAutoPost.ts:105-173 | the loop keeps the number of groups; it ends past the last group when it completes, and at group 0 when it throws |
| Schedule.SuccessfulAttempt | src/hooks/useAutoPost.ts:117-172 | a successful call marks the group success and records one entry: the post id, the exact text sent, the ISO time, the URL and the thumbnail of the group's first image; the call carried the group's own images; a 5 s pause follows unless this was the last group |
| Schedule.RetriedAttempt | src/hooks/useAutoPost.ts:149-157 | a failed group after the first with retries left: its count goes up by one, the same index comes round again, no entry is made, and the backoff is read from the group before |
| Schedule.AbortingAttempt | src/hooks/useAutoPost.ts:149-156 | a failure of group 0 with retries left raises its count, publishes the groups and throws: no pause taken and no entry made |
| Schedule.ExhaustedAttempt | src/hooks/useAutoPost.ts:158-172 | a failure with no retries left marks the group failed with the message or "Unknown error", and the loop moves on with the 5 s pause unless this was the last group |
| Schedule.AttemptKeepsInv | src/hooks/useAutoPost.ts:105-172 | every pass that goes on keeps the loop invariant (see `Inv`) |
| Schedule.RunKeepsInv | src/hooks/useAutoPost.ts:105-173 | a loop that completes ends past the last group with the invariant holding |
| Schedule.AttemptKeepsEntries | src/hooks/useAutoPost.ts:124-166 | every pass, the throwing one too, keeps each recorded entry tied to a successful call: its post id and URL, the text sent and the time read before it |
| Schedule.RunKeepsEntries | src/hooks/useAutoPost.ts:105-173 | however the loop ends, every entry it recorded is that of one of its successful calls (id, URL, text and time of that call) |
| Schedule.NoAbortAfterFirstGroup | src/hooks/useAutoPost.ts:149-157 | once group 0 is done, the loop always runs to its end |
| Schedule.FirstFailureAborts | src/hooks/useAutoPost.ts:149-157 | a run from fresh groups throws exactly when its first call fails; it then leaves group 0 posting with one retry counted and the history and pauses untouched |
| Schedule.CompletedRun | src/hooks/useAutoPost.ts:105-175 | a run that completes leaves every group either success (within 5 retries) or failed (after exactly 5, with a message); group 0 succeeded at once; there is one history entry per successful group, added in order; one 5 s pause between each two groups; every call carried its group's images and a body stamped with its own clock reading; every entry is that of a successful call (`EntriesInv`) |
| Schedule.FiveImagesAllPosted | src/hooks/useAutoPost.ts:82-172 | 5 images with every call succeeding: two groups (4 and 1 images), both success, two entries, one 5 s pause |
| Schedule.SecondGroupBackoffFromFirst | src/hooks/useAutoPost.ts:153-156 | the code as written: group 1 failing once waits 1000 ms (group 0's count) rather than 2000 ms |
| Schedule.SingleGroupFirstFailureAborts | src/hooks/useAutoPost.ts:153-156 | the code as written: one group that fails twice and would then succeed ends the run at the first failure, left posting with count 1 and no entry |
| Schedule.CorrectedAttempt | src/hooks/useAutoPost.ts:149-157 | the intended pass: as `Attempt`, but the backoff reads the retried group's new count and nothing throws; a pass moves on or uses up a retry |
| Schedule.CorrectedRun | src/hooks/useAutoPost.ts:105-173 | the intended loop always runs past the last group |
| Schedule.CorrectedRetry | src/hooks/useAutoPost.ts:149-157 | intended: every failure with retries left, group 0 included, waits `1000 × 2^(new count)` ms and retries the same group |
| Schedule.CorrectedSecondGroupBackoff | src/hooks/useAutoPost.ts:149-157 | intended: group 1 failing once waits 2000 ms |
| Schedule.CorrectedSingleGroupRetries | src/hooks/useAutoPost.ts:149-157 | intended: one group that fails twice and then succeeds ends success with count 2, after backoffs of 2000 and 4000 ms, with one entry |
| PostHandler.WordRun | api/post.ts:47 | the greedy `\w+`: the run stays inside the string, holds only word characters and stops at a non-word character or the end |
| PostHandler.DataUrlWord | api/post.ts:47-56 | a word that is found is the `\w+` of a `data:image/<word>;base64,` prefix of the string |
| PostHandler.DataUrlWordComplete | api/post.ts:47-56 | every such prefix is found, with its own word |
| PostHandler.MimeType | api/post.ts:47-48 | `image/<word>` when the prefix is present, `image/jpeg` otherwise |
| PostHandler.StripPrefix | api/post.ts:55-58 | the string changes exactly when the prefix is present, and then the prefix followed by the result is the original string |
| PostHandler.PrefixedImage | api/post.ts:47-58 | with a prefix, detection reports its type and stripping removes exactly that prefix |
| PostHandler.UnprefixedImage | api/post.ts:47-58 | without a prefix the type is JPEG and the string is left as it is |
| PostHandler.UploadType | api/post.ts:50-53 | the type is one of jpg, png, gif, webp, and is other than jpg exactly for the PNG, GIF and WebP MIME types, when it names that type |
| PostHandler.PrepareUpload | api/post.ts:44-67 | with a data-URL prefix the MIME type is `image/<word>` of that prefix and the payload is the image with the prefix removed; without one the image goes unchanged as `image/jpeg`, type `jpg`; the upload type always agrees with the MIME type |
| PostHandler.MissingCredentials | api/post.ts:15-26 | the list holds exactly the unset or empty credential names, in their fixed order, and is empty exactly when all four are set |
| PostHandler.Join | api/post.ts:27-30 | `join`: one part is itself, no parts give the empty string |
| PostHandler.JoinAppend | api/post.ts:30 | joining one more part puts exactly one separator before it, so the parts appear in order with `sep` between neighbours |
| PostHandler.NoCredentialsMissing | api/post.ts:21-26 | with no variable set, all four names are missing, in their fixed order |
| PostHandler.CredentialNamesJoined | api/post.ts:30 | the four names joined by `", "` |
| PostHandler.NoCredentialsDetails | api/post.ts:15-31 | a valid request with no credentials set gets 500 with `details` naming all four variables, comma-separated, and no upload happens |
| PostHandler.Respond | api/post.ts:89-106 | 200 exactly for a posted tweet, with `success: true`, the x.com URL and the id; otherwise 500 whose error is the `Error`'s message, or "Internal Server Error" for any other thrown value |
| PostHandler.Handle | api/post.ts:4-107 | a method other than POST gets 405 whatever else holds; then a falsy text or an empty or non-array image list gets 400; then missing credentials get 500 naming them; uploads happen exactly when all three checks pass, one per image in order, and the response is then that of the tweet outcome |
| PostHandler.SuccessShape | api/post.ts:89-93 | a posted tweet answers 200 with `success: true`, the tweet's URL and its id |
| AutoPostHook.AutoPost.constructor | src/hooks/useAutoPost.ts:46-60 | the initial state: not posting, no groups, index 0, history loaded from storage |
| AutoPostHook.AutoPost.AddToHistory | src/hooks/useAutoPost.ts:67-72 | the history becomes `Added` of the old one, and nothing else changes |
| AutoPostHook.AutoPost.DeleteHistory | src/hooks/useAutoPost.ts:74-76 | the history becomes `Deleted` of the old one, and nothing else changes |
| AutoPostHook.AutoPost.ClearHistory | src/hooks/useAutoPost.ts:78-80 | the history becomes empty, and nothing else changes |
| AutoPostHook.AutoPost.Pass | src/hooks/useAutoPost.ts:106-172 | one run of the loop body has exactly the effect of `Attempt` on the fields and the array; it throws exactly when `Attempt` does; the published groups are the array and the index is the current group |
| AutoPostHook.AutoPost.Succeeded | src/hooks/useAutoPost.ts:132-144 | the success path marks the group success and adds its entry, so that with the pause still to come the state is exactly `Attempt`'s |
| AutoPostHook.AutoPost.Retried | src/hooks/useAutoPost.ts:149-157 | the retry path raises the count, steps the index back and waits the backoff read at the stepped-back index; it throws exactly when `Attempt` aborts, and leaves `Attempt`'s state |
| AutoPostHook.AutoPost.GaveUp | src/hooks/useAutoPost.ts:158-166 | the give-up path marks the group failed with the error's text, so that with the pause still to come the state is exactly `Attempt`'s |
| AutoPostHook.AutoPost.ProcessGroups | src/hooks/useAutoPost.ts:97-178 | the loop leaves history, pauses, calls and groups exactly as `Run` does; a completed loop clears `isPosting` and rests on the last group; a loop that throws leaves `isPosting` as it was and the index at 0 |
| AutoPostHook.AutoPost.StartPosting | src/hooks/useAutoPost.ts:180-193 | no images change nothing; otherwise the state is that of `Run` over `Segment` of the images; `isPosting` stays set exactly when the first call fails, and when it is cleared the outcome of `CompletedRun` holds; every entry recorded is that of a successful call |

## Left out

- `resizeThumbnail` (canvas drawing and JPEG encoding) is the parameter `thumbnail`. The model does not capture the hang when the image never loads.
- `readFileAsDataURL`, `Promise.all` over the images, and the HTTP call in `postTweet` form one outcome per call. `Posted` carries the id and URL; `Threw` carries the message, if the thrown value has one.
- `services/api.ts`: only the message of what it throws is kept. When the server's answer carries an `error` string it throws that string, so `err.message` is undefined and the group shows "Unknown error"; otherwise it throws `new Error("Failed to post")` and the group shows that message. The model allows any message.
- `new Date()`, `format` and `toISOString` are the parameter `clock`. `crypto.randomUUID()` is the parameter `uuid`.
- `setTimeout` delays are recorded in the `delays` log, not waited for. The loop runs to completion within one call; the fact that `startPosting` does not await `processGroups` is not modelled.
- The `localStorage` write effect (`useEffect` on `history`) is not modelled. The read is modelled with the decoder given as a parameter.
- React re-rendering and batching are not modelled: a state update is an assignment to a field, seen at once.
- Aliasing between `activeGroups` and the published snapshots is not modelled. The line `activeGroups[i].retryCount += 1` also mutates the object already published by the previous `setGroups`; the model publishes values (copies).
- `console` logging is not modelled.
- `api/post.ts`: only the combined outcome of the uploads and the tweet is kept. The Twitter SDK client, base64 decoding into a `Buffer` and the per-image error rethrow are not modelled.
- `api/post.ts`: the `code` and `data` fields of the 500 response are not modelled.
- `api/post.ts`: a missing `req.body` is not modelled, and neither are array elements that are not strings.
- `StatusMonitor.Progress`: `Math.round` over floating point is modelled as exact rational rounding, with halves rounded up.
- `History.Loaded`: a stored history longer than 100 entries is not cut on load, as in the source.
- `Schedule.Run`: `processGroups` is only called from `startPosting`, so the model requires every group index to have images (`Covers`). A group without images is not captured: its call would carry an empty list, which the server rejects (400), so it would be retried; and if such a call did succeed, the thumbnail read of `groupImages[0]` (`useAutoPost.ts:135`) would throw.
- The rest of the status panel is not modelled: JSX, styling, the timeline fetch, and the empty-state text at `StatusMonitor.tsx:49`.
- `App.tsx`, `PostComposer.tsx`, `Header.tsx`, `api/timeline.ts` and `tailwind.config.js` are not part of this model.

## Findings

| source | as written | input that shows it | evidently intended | confidence | as-written member | corrected member |
|---|---|---|---|---|---|---|
| src/hooks/useAutoPost.ts:153-156 | `i--` runs before `activeGroups[i].retryCount` is read, so a retry of group i > 0 waits by group i-1's count | two groups; calls: success, failure, success. The retry of group 1 waits 1000 ms (group 0 has count 0) | wait `1000 × 2^(new count)` of the retried group: 2000 ms | not executed | Schedule.SecondGroupBackoffFromFirst | Schedule.CorrectedSecondGroupBackoff |
| src/hooks/useAutoPost.ts:153-156 | for group 0 the read is `activeGroups[-1].retryCount`, which throws out of the loop; `isPosting` is never cleared and group 0 stays "posting" | one image; calls: failure, failure, success. The run ends at the first failure with count 1 and no entry | retry group 0 like any other: success with count 2 after 2000 ms and 4000 ms, with one history entry | not executed | Schedule.SingleGroupFirstFailureAborts | Schedule.CorrectedSingleGroupRetries |
