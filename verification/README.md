# Mail queue of my-app, modelled in Dafny

my-app sends e-mail campaigns. A campaign is linked to subscribers through a
delivery ledger (`campaign_subscribers`, one `sent` flag per campaign and
subscriber). Each message is a job in a BullMQ mail queue, and the jobs are
drained by several handlers:

- `POST /api/queue/process-now` and the cron endpoint `/api/queue/worker` fetch
  a page of jobs and send it.
- `POST` to `src/worker/process.ts` fetches a page and sends only the jobs of one
  campaign.
- Two long-running BullMQ workers handle one job at a time.

All of them go through the SMTP mailer (`sendMail`) or its HTTP alternatives
(`sendMailSmart`). `GET /api/queue/status` summarises the queue, the campaigns
and subscribers APIs create campaigns, link subscribers and page through
subscribers, and three UI pieces show the results: the progress popup, the toast
list, and the subscribers page with its CSV upload.

Each handler is a pure function. It takes the queue, the ledger and the
campaigns table, plus the answers of the outside world: the transport's reply,
whether a database write went through, and whether a queue call succeeded. It
returns its HTTP answer, the new state, and the messages it handed to the
transport. The `for` loops of the pull-mode handlers are left folds (`Step` and
`Pass`) over the fetched page. Each fold is connected by lemmas to a per-job
classification (`Attempted`, `Delivered`, `Removed`, `Succeeds`, `WritesLedger`)
stated without reference to the loop. For process-now, an imperative version of
the loop (`RunLoop`) is proved equal to the fold.

Modules, one per source file plus shared ones:

- `Wrappers`, `Js`: Option/Result; JavaScript truthiness and `||`.
- `Text`: the `{{name}}` substitution and the tag-stripping plain-text fallback.
- `Mailer`, `MailerHttp`: `src/lib/mailer.ts` and `src/lib/mailer-http.ts`.
- `Queue`, `Store`: jobs, `getJobs`, removal and state moves; the ledger and the campaigns table.
- `ProcessNow`, `QueueWorker`, `CampaignProcess`, `VpsWorker`, `MailWorker`: the five job handlers.
- `QueueStatus`, `CampaignsApi`, `SubscribersApi`: the other API routes.
- `QueuePopup`, `Toast`, `SubscribersPage`: the UI logic.

Three points where the code does less than its comments and names suggest;
the model follows the code:

- An invalid payload is never failed for good. process-now counts it as failed
  and leaves it queued, and process.ts skips it silently.
- The completion check counts only a campaign's unsent ledger rows. Jobs of the
  campaign still waiting or running in the queue are not consulted.
- A comment in process.ts says 20 jobs are fetched. The call asks for 51.

## Model

| member | source | states |
|---|---|---|
| `Text.ReplaceAllIsSplitJoin` | src/pages/api/queue/process-now.ts:46 | the global `{{name}}` replace turns the text split at the placeholder, joined again, into the same pieces joined with the replacement: every occurrence is replaced and every other character is kept in place |
| `Text.ReplaceWithoutMatch` | src/pages/api/queue/worker.ts:45 | html without a placeholder is sent unchanged by the substitution |
| `Text.ReplaceBySelf` | src/pages/api/queue/worker.ts:45 | replacing the placeholder by itself is the identity, so matches resume after each replacement and never overlap |
| `Text.StripTags` | src/lib/mailer.ts:36 | the plain-text fallback deletes characters only: it is no longer than the html, and its characters are a sub-multiset of the html's |
| `Text.StripTagsIsTagFree` | src/lib/mailer.ts:36 | no match of `/<[^>]+>/` survives the global replace |
| `Text.StripTagsKeepsTagFree` | src/lib/mailer.ts:36 | text with no match of the tag pattern is left exactly as it is |
| `Text.StripTagsIdempotent` | src/lib/mailer.ts:36 | stripping the fallback text again changes nothing |
| `Text.StripTagsWithoutOpeningBracket` | src/lib/mailer.ts:36 | text without `<` is its own plain-text version |
| `Mailer.SmtpPort` | src/lib/mailer.ts:10 | an unset or empty `SMTP_PORT` gives port 587 |
| `Mailer.DecimalRoundTrip` | src/lib/mailer.ts:10 | a port written in decimal is a digit string that `Number` reads back as the same number (integers are exact, see Left out) |
| `Mailer.SmtpPortOfSetting` | src/lib/mailer.ts:10 | a configured port is used as written; an unset or empty setting gives 587 |
| `Mailer.SecureIffPort465` | src/lib/mailer.ts:11 | TLS from the start exactly when the setting spells 465; never for the default |
| `Mailer.PlainText` | src/lib/mailer.ts:34-37 | the caller's truthy `text` wins; otherwise the stripped html; a missing html throws, and only then |
| `Mailer.SendMail` | src/lib/mailer.ts:32-60 | the transport receives the caller's to/subject/html with the completed text; the result is the transport's message id exactly when it accepts; a rejection is rethrown |
| `MailerHttp.ChooseProvider` | src/lib/mailer-http.ts:131-143 | the chosen provider is configured, and every provider ahead of it in Resend, SendGrid, Mailgun, SMTP order is not |
| `MailerHttp.SendWithResend` | src/lib/mailer-http.ts:12-43 | no key: throws before any request; a non-OK answer throws with the response text; success returns the JSON `id`; the request carries the completed plain text |
| `MailerHttp.SendWithSendGrid` | src/lib/mailer-http.ts:46-91 | as Resend, but the message id is the `x-message-id` header, or `sent` when it is absent |
| `MailerHttp.SendWithMailgun` | src/lib/mailer-http.ts:94-126 | needs both key and domain; otherwise as Resend |
| `MailerHttp.SendMailSmart` | src/lib/mailer-http.ts:131-143 | the request always goes to the chosen provider, so a missing-key error can never occur; the SMTP fallback sends the same completed text |
| `Queue.Select` | src/pages/api/queue/status.ts:19-20 | the jobs in the given states, each taken from the queue, none missed; ids stay distinct |
| `Queue.Fetch` | src/pages/api/queue/process-now.ts:17 | `getJobs(states, 0, end)` applies the range to each state's list on its own; the page holds only queued jobs in the named states |
| `Queue.FetchCovers` | src/pages/api/queue/process-now.ts:17 | every queued job of a named state that has at most `end + 1` jobs is on the page |
| `Queue.FetchUnique` | src/pages/api/queue/process-now.ts:17 | when the named states are distinct, a page taken from a queue with distinct ids has distinct ids |
| `Queue.FetchSize` | src/pages/api/queue/process-now.ts:17 | each named state contributes at most `end + 1` jobs to the page |
| `Queue.FetchOneState` | src/pages/api/queue/worker.ts:27 | for one state the page is the first `end + 1` jobs of that state, in queue order |
| `ProcessNow.PageBound` | src/pages/api/queue/process-now.ts:17 | one pass takes up to 51 waiting and 51 active jobs, and all of them when a state has no more than 51 |
| `Queue.Without` | src/pages/api/queue/process-now.ts:59 | after `job.remove()` on a set of ids, a job is in the queue exactly when it was before and its id is not in the set |
| `Queue.Resolve` | src/pages/api/queue/worker.ts:58-64 | moving jobs keeps every position, id and payload; moved jobs take their new state and the others are unchanged |
| `Store.MarkSent` | src/pages/api/queue/process-now.ts:50-56 | the update sets `sent` on the one row matching both ids and creates no row; every other flag is unchanged |
| `Store.MarkSentIdempotent` | src/pages/api/queue/process-now.ts:51-55 | writing the same row twice leaves the ledger as writing it once |
| `ProcessNow.Step` | src/pages/api/queue/process-now.ts:31-67 | one iteration counts the job as sent or failed; it is sent and removed exactly when it is valid, delivered and removed; the ledger row is written exactly when it was delivered with both ids truthy; the personalised message goes out exactly when the job is valid |
| `ProcessNow.Pass` | src/pages/api/queue/process-now.ts:27-67 | sent plus failed is the page size, and the ledger only gains `sent` flags |
| `ProcessNow.PassRemoved` | src/pages/api/queue/process-now.ts:58-60 | the removed ids are exactly those of the valid, delivered jobs whose removal went through |
| `ProcessNow.PassSentCount` | src/pages/api/queue/process-now.ts:58-60 | `sentCount` equals the number of jobs that were delivered and removed |
| `ProcessNow.PassOutbox` | src/pages/api/queue/process-now.ts:42-47 | every message handed to the transport is some valid fetched job's message with the name substituted |
| `ProcessNow.PassLedger` | src/pages/api/queue/process-now.ts:49-56 | a changed ledger row is now sent and belongs to a delivered job with both ids truthy; every such job's existing row ends sent |
| `ProcessNow.FailedJobsStay` | src/pages/api/queue/process-now.ts:35-40 | an undelivered job is never removed; an invalid one never reaches the transport |
| `ProcessNow.MarkCompletedSpec` | src/pages/api/queue/process-now.ts:69-87 | a campaign reads `sent` exactly when it already did, or it was touched, has no unsent link, and both its count query and its status update went through; nothing else about any campaign changes |
| `ProcessNow.MarkCompletedIdempotent` | src/pages/api/queue/process-now.ts:69-87 | running the completion check twice is running it once |
| `ProcessNow.Handle` | src/pages/api/queue/process-now.ts:11-95 | non-POST is 405 and an empty page is "no jobs", both changing nothing; `processed = sent + failed =` page size; the ledger only grows; the queue only loses jobs; no campaign is created or deleted |
| `ProcessNow.HandleKeepsUndeliveredJobs` | src/pages/api/queue/process-now.ts:31-67 | unfetched jobs and fetched jobs that were not delivered remain in the queue for the next run |
| `ProcessNow.HandleCompletion` | src/pages/api/queue/process-now.ts:69-87 | after a pass, a campaign is `sent` exactly when it was, or a fetched job named it, the updated ledger has no unsent link for it, and the completion queries for it went through |
| `ProcessNow.CompletionFailureUnreported` | src/pages/api/queue/process-now.ts:72-84 | the completion queries' results are never checked: their failure changes neither the answer, the queue, the ledger nor the messages |
| `ProcessNow.HandleJob` | src/pages/api/queue/process-now.ts:32-66 | the loop body with mutable counters does exactly what the functional `Step` does, and bumps exactly one counter |
| `ProcessNow.RunLoop` | src/pages/api/queue/process-now.ts:27-67 | the imperative loop computes the same counters, ledger, removals and messages as the fold `Pass` |
| `QueueWorker.UnsetSecretAdmitsLiteralUndefined` | src/pages/api/queue/worker.ts:21-24 | as written, with `CRON_SECRET` unset, the header `Bearer undefined` is authorised (and `Bearer ` for an empty secret) |
| `QueueWorker.AuthorizedNeedsSecret` | src/pages/api/queue/worker.ts:21-24 | the corrected check admits nothing without a truthy secret, and agrees with the check as written whenever one is set |
| `QueueWorker.Step` | src/pages/api/queue/worker.ts:37-65 | after a throw nothing happens; otherwise a job that succeeds moves to completed and counts, a failure moves to failed, a failing `moveToFailed` makes the handler throw; the ledger is written when delivered with a truthy subscriber id |
| `QueueWorker.Pass` | src/pages/api/queue/worker.ts:37-65 | the sent count never exceeds the page size, and the ledger only gains `sent` flags |
| `QueueWorker.PassCrashes` | src/pages/api/queue/worker.ts:61-64 | the handler throws exactly when some fetched job fails and cannot be moved to failed |
| `QueueWorker.PassMovesEveryJob` | src/pages/api/queue/worker.ts:37-65 | without a throw, exactly the fetched jobs are moved |
| `QueueWorker.PassMovedState` | src/pages/api/queue/worker.ts:58-64 | without a throw, each fetched job is completed if it succeeded and failed otherwise |
| `QueueWorker.PassSentCount` | src/pages/api/queue/worker.ts:58-59 | without a throw, `sentCount` is the number of jobs that succeeded |
| `QueueWorker.PassLedger` | src/pages/api/queue/worker.ts:49-55 | a changed row is now sent and matches the ids of a delivered job with a truthy subscriber id; the campaign id is not checked |
| `QueueWorker.PassOutbox` | src/pages/api/queue/worker.ts:42-46 | every message handed to the transport is a fetched job's personalised message |
| `QueueWorker.MovesStayInPage` | src/pages/api/queue/worker.ts:58-64 | only fetched jobs are moved |
| `QueueWorker.Process` | src/pages/api/queue/worker.ts:27-68 | an empty page is "no jobs" and changes nothing; `sent` is at most the page size, at most 10; the ledger only grows; positions are kept and unfetched jobs are untouched; campaigns never change |
| `QueueWorker.Handle` | src/pages/api/queue/worker.ts:21-68 | the answer is 401, changing nothing, exactly when the header differs from the rendered `Bearer ${CRON_SECRET}`; otherwise as `Process` |
| `QueueWorker.HandleCorrected` | src/pages/api/queue/worker.ts:21-24 | with the corrected check nothing is done without a configured secret, and with one it behaves as the handler as written |
| `QueueWorker.UnsetSecretRunsBatch` | src/pages/api/queue/worker.ts:21-68 | with `CRON_SECRET` unset, `Bearer undefined` runs the batch exactly as a properly authorised request would; the corrected handler answers 401 and changes nothing |
| `QueueWorker.HandleResolvesPage` | src/pages/api/queue/worker.ts:21-68 | for an authorised request (as written) where no job makes it throw, the answer counts the succeeded jobs and every fetched job ends completed or failed by its own outcome |
| `CampaignProcess.Step` | src/worker/process.ts:29-41 | other campaigns' jobs and invalid payloads are passed over; a valid job of the campaign is sent with its stored html and counted and removed exactly when sent and removed |
| `CampaignProcess.PassSentCount` | src/worker/process.ts:34-36 | `sentCount` is the number of the campaign's jobs sent and removed, at most the number of its fetched jobs |
| `CampaignProcess.PassRemoved` | src/worker/process.ts:34-36 | the removed ids are exactly those of the campaign's jobs that were sent and removed |
| `CampaignProcess.PassOutbox` | src/worker/process.ts:31-34 | every message sent belongs to a valid job of the campaign and carries its html unchanged |
| `CampaignProcess.Handle` | src/worker/process.ts:13-43 | non-POST is 405 and a falsy id is 400, both changing nothing; the ledger and campaigns are never written; the queue only loses jobs |
| `CampaignProcess.HandleCounts` | src/worker/process.ts:23-43 | the answer is the number of the campaign's jobs sent and removed; a page without them answers `{sent: 0}` and changes nothing |
| `CampaignProcess.NoMatchNoEffect` | src/worker/process.ts:25 | a page with no job of the campaign sends nothing and removes nothing |
| `CampaignProcess.HandleKeepsUnsentJobs` | src/worker/process.ts:29-41 | unfetched jobs, and fetched jobs not sent and removed, stay in the queue |
| `VpsWorker.Handle` | src/worker/vps-worker.ts:27-60 | the stored html goes out unvalidated; no html throws; a rejection is rethrown with the ledger untouched; success, with the message id, exactly when delivered and the flag write succeeded; the ledger row is flagged exactly on success; a failed write after delivery throws |
| `VpsWorker.LedgerFailureAfterDelivery` | src/worker/vps-worker.ts:51-54 | a failed flag write fails a job whose message was already delivered, so the retry sends the same message again |
| `VpsWorker.RetryKeepsLedger` | src/worker/vps-worker.ts:42-49 | handling a job again after a success leaves the ledger as the first success left it |
| `VpsWorker.HandleLedgerGrows` | src/worker/vps-worker.ts:42-49 | the ledger only gains flags, and only the job's own row can change |
| `MailWorker.Handle` | src/worker/mailWorker.ts:9-29 | a null job or a payload missing email, subject or html returns without sending; otherwise the stored html goes out; the handler throws exactly when the transport rejects |
| `MailWorker.SameMessageAsVpsWorker` | src/worker/mailWorker.ts:23-29 | for a valid payload both push-mode handlers send the same message and fail on the same transport errors |
| `MailWorker.SkipsWhatVpsWorkerSends` | src/worker/mailWorker.ts:18-21 | a payload with html but an empty email is skipped here and sent by the other handler |
| `QueueStatus.GroupByCampaignCounts` | src/pages/api/queue/status.ts:23-29 | the reduce holds exactly the truthy campaign ids that occur, each with its number of jobs |
| `QueueStatus.Bump` | src/pages/api/queue/status.ts:48-53 | the counting loops create no entry and drop none |
| `QueueStatus.BumpCounts` | src/pages/api/queue/status.ts:48-53 | each entry's counter grows by the number of that campaign's jobs; nothing else changes |
| `QueueStatus.Details` | src/pages/api/queue/status.ts:32-46 | the entries are those of the ids grouped from waiting or active jobs |
| `QueueStatus.DetailsSpec` | src/pages/api/queue/status.ts:32-53 | an entry exists exactly for each truthy campaign id with a waiting or active job; it counts those jobs, is never all-zero, and reports zero completed and failed |
| `QueueStatus.Handle` | src/pages/api/queue/status.ts:11-65 | a failed queue call answers 500 with a fixed message; otherwise the totals are the queue-wide completed and failed counts, entries carry zero completed/failed, and an empty queue answers empty details with zero totals |
| `QueueStatus.OtherStatesIgnored` | src/pages/api/queue/status.ts:19-20 | jobs in states other than waiting and active do not change `details` |
| `CampaignsApi.LinkRows` | src/pages/api/campaigns/index.ts:42-45 | one link row per subscriber id |
| `CampaignsApi.LinkRowsRoundTrip` | src/pages/api/campaigns/index.ts:42-45 | every link row names the new campaign, and reading back the subscriber column gives the ids in order |
| `CampaignsApi.InsertRows` | src/pages/api/campaigns/index.ts:46 | the inserted links are new unsent rows; existing rows keep their flags |
| `CampaignsApi.CreateCampaign` | src/pages/api/campaigns/index.ts:28-50 | a falsy name, subject or body is 400 with no change; an insert error changes nothing; otherwise the campaign is created as a draft under the new id; links are inserted only when that insert succeeds; a failed link insert is ignored |
| `CampaignsApi.PostLinksEachSubscriber` | src/pages/api/campaigns/index.ts:41-48 | for a new id the campaign's rows are exactly one unsent row per given subscriber id; absent ids link none |
| `CampaignsApi.ListCampaigns` | src/pages/api/campaigns/index.ts:7-25 | an error is answered as such; otherwise every row is mapped in order |
| `CampaignsApi.ListedCountMatchesLinks` | src/pages/api/campaigns/index.ts:21 | the listed count of a campaign is the number of link rows created for it |
| `CampaignsApi.Handle` | src/pages/api/campaigns/index.ts:5-54 | only POST writes; GET answers the listing and other methods 405; no existing link row or campaign other than the new id changes; every new link row is unsent and belongs to the newly inserted campaign |
| `SubscribersApi.LeadingDigits` | src/pages/api/subscribers.ts:11-12 | the longest digit prefix of the parameter |
| `SubscribersApi.ParseInt` | src/pages/api/subscribers.ts:11-12 | `parseInt` is NaN exactly when no digit follows the optional sign |
| `SubscribersApi.ParseIntOfDecimal` | src/pages/api/subscribers.ts:11-12 | a decimal page or limit reads back as itself (integers are exact, see Left out) |
| `SubscribersApi.PageWindow` | src/pages/api/subscribers.ts:13 | the requested range starts at `(page - 1) * limit` and spans `limit` rows |
| `SubscribersApi.PagesAreContiguous` | src/pages/api/subscribers.ts:13-27 | each page starts right after the previous one ends |
| `SubscribersApi.PagesPartitionRows` | src/pages/api/subscribers.ts:13-27 | for a positive limit row `n` lies in page `p` exactly when `p = n / limit + 1` |
| `SubscribersApi.Requested` | src/pages/api/subscribers.ts:10-27 | `.range` is always called; its bounds are numbers exactly when both parameters parse, and then they are the page's window; otherwise both are NaN |
| `SubscribersApi.RequestedDefault` | src/pages/api/subscribers.ts:10-27 | without parameters the range 0 to 49 is requested |
| `SubscribersApi.DefaultsParse` | src/pages/api/subscribers.ts:10-12 | the defaults parse to page 1 and limit 50 |
| `SubscribersApi.ListSubscribers` | src/pages/api/subscribers.ts:8-46 | a database error is answered as such; otherwise the rows or `[]`, the count or 0, and the page and limit echoed are numbers exactly when the requested range is, and then they are the ones whose window was requested |
| `SubscribersApi.ListingDefaults` | src/pages/api/subscribers.ts:36-41 | without parameters the listing echoes page 1 and limit 50 |
| `SubscribersApi.AddSubscribers` | src/pages/api/subscribers.ts:49-73 | a missing, non-array or empty list is 400; an upsert error is 500; otherwise the reported count, or the list's length when the count is null |
| `SubscribersApi.RemoveSubscriber` | src/pages/api/subscribers.ts:76-99 | an absent, empty or repeated id is 400 with no change; a delete error is 500 with no change; otherwise exactly that id is removed |
| `SubscribersApi.Handle` | src/pages/api/subscribers.ts:6-102 | the table never gains an id; when it changes, the request was a DELETE answered as removed and exactly one id is gone; a listing answers only GET, an insert count only POST, and 405 exactly the other methods |
| `SubscribersApi.HandleByName` | src/pages/api/subscribers.ts:8-102 | read from `req.method`, the answer is 405 exactly when the name is none of GET, POST and DELETE |
| `Js.MethodOf` | src/pages/api/subscribers.ts:8-102 | `req.method` is read as GET, POST or DELETE when it is that name, and as `Other` exactly otherwise; the name reads back |
| `QueuePopup.Progress` | src/components/QueuePopup.tsx:21 | the percentage lies between 0 and 100 |
| `QueuePopup.ProgressExtremes` | src/components/QueuePopup.tsx:20-23 | the bar is full exactly when nothing waits or runs and there is a job; empty exactly when nothing finished; all-zero counts read as complete at 0 % |
| `QueuePopup.ProgressMonotone` | src/components/QueuePopup.tsx:21 | finishing a waiting job, either way, strictly raises the bar |
| `QueuePopup.Render` | src/components/QueuePopup.tsx:32-124 | the Close button shows exactly when complete; the red gradient exactly when something failed; the in-progress message exactly while incomplete, never with more processed than total |
| `Toast.AddToast` | src/components/Toast.tsx:43-48 | the list gains one toast at the end, of type info by default, and the earlier toasts are kept |
| `Toast.RemoveToast` | src/components/Toast.tsx:50-52 | a toast survives exactly when it was there and its id differs |
| `Toast.RemoveDistributes` | src/components/Toast.tsx:50-52 | the filter keeps the survivors in order |
| `Toast.RemoveAbsent` | src/components/Toast.tsx:50-52 | removing an id no toast carries changes nothing |
| `Toast.AddThenRemove` | src/components/Toast.tsx:43-52 | a toast added under a fresh id and then removed leaves the list as it was |
| `Toast.RemoveIdempotent` | src/components/Toast.tsx:50-52 | removing twice is removing once |
| `SubscribersPage.TotalPages` | src/pages/subscribers.tsx:131 | `Math.ceil(totalCount / LIMIT)`: the pages cover every row, and the last page is not empty |
| `SubscribersPage.ShowControlsIffMoreThanOnePage` | src/pages/subscribers.tsx:212 | the pagination shows exactly when there are more than 50 subscribers; there are no pages exactly when there are none |
| `SubscribersPage.Previous` | src/pages/subscribers.tsx:219 | one back from any later page, and exactly page 1 from page 1 or below |
| `SubscribersPage.Next` | src/pages/subscribers.tsx:226 | one ahead from any earlier page, and exactly the last page from the last page or beyond |
| `SubscribersPage.NavigationStaysInRange` | src/pages/subscribers.tsx:218-231 | from a page in range both buttons land in range, and Previous undoes Next below the last page |
| `Js.Slice` | src/pages/subscribers.tsx:106 | `slice(0, n)` is a prefix of at most `n` items, exactly `n` when there are enough, and the whole list when there are not |
| `Js.SliceAppend` | src/pages/subscribers.tsx:106 | trimming the preview before appending a chunk gives the same preview as trimming after |
| `SubscribersPage.RejectedChunkCountedAsWritten` | src/pages/subscribers.tsx:81 | as written, a chunk the server rejects with an error still adds its full size to the counter |
| `SubscribersPage.RejectedUploadCounted` | src/pages/subscribers.tsx:73-107 | an upload of one chunk whose upsert fails shows every row as uploaded on the page as written, and none with the corrected count |
| `SubscribersPage.Added` | src/pages/subscribers.tsx:81 | the corrected count is positive only for an OK answer, and then agrees with the fallbacks as written |
| `SubscribersPage.AddedMatchesServer` | src/pages/subscribers.tsx:73-86 | with the corrected count each chunk adds exactly what the server reports as inserted, and nothing when it failed |
| `SubscribersPage.SinceReset` | src/pages/subscribers.tsx:94-129 | the events since the last file or reset: the longest suffix made only of chunks |
| `SubscribersPage.RunPreview` | src/pages/subscribers.tsx:94-107 | after any events the preview is the first five rows parsed since the last file or reset |
| `SubscribersPage.RunCount` | src/pages/subscribers.tsx:73-129 | the counter holds what the chunks since the last file or reset were credited with: on the page as written, `inserted ?? count ?? rows.length` of each non-empty chunk's JSON reply |
| `SubscribersPage.CorrectedNeverExceedsAsWritten` | src/pages/subscribers.tsx:73-129 | the counter as written is never below the corrected one, and equals it when no chunk was rejected |
| `SubscribersPage.RunPostsChunks` | src/pages/subscribers.tsx:103-107 | only non-empty chunks delivered by the parser are posted |

## Left out

- The database, Redis/BullMQ, nodemailer and `fetch` are not modelled. Their answers are parameters: a transport reply, a success flag, or an error message.
- Timestamps (`sent_at`, `created_at` ordering), `Date.now`/`Math.random` toast ids, and the 4-second toast timer are not modelled.
- Console logging, `localStorage`, and the rendering of every component are not modelled.
- Concurrency is not modelled: worker concurrency, interleaving handlers, BullMQ's lock and retry policy, retention windows, and graceful shutdown. Each handler runs alone on one state.
- Exceptions thrown by `getJobs`/`getJobCounts` in process-now, worker.ts and process.ts, and the 500 answers they produce, are not modelled. Only status.ts's 500 is modelled, as `storeOk`.
- BullMQ's `getJobs` also reads the `paused` list when `waiting` is asked for. The queue here is never paused, so the model has no paused state. The order of jobs within one state's list is taken to be queue order.
- `Text.ReplaceAllIsSplitJoin`: the replacement string is taken literally. JavaScript's `$&`-style patterns in a subscriber name are not modelled.
- `SubscribersApi.ParseInt`: leading white space, `0x` prefixes and array-valued query parameters are not modelled. Numbers are exact integers: the rounding of a double above 2^53 (`parseInt("9007199254740993")` is 9007199254740992) is not modelled, so `SubscribersApi.ParseIntOfDecimal` holds as stated only below 2^53 in JavaScript.
- `Mailer.SmtpPort`: `Number` is modelled only for plain digit strings. Anything else reads as NaN, including ones `Number` would accept, such as " 25" or "2.5e1". Numbers are exact integers: the rounding of a double above 2^53 is not modelled, so `Mailer.DecimalRoundTrip` and `Mailer.SmtpPortOfSetting` hold as stated only below 2^53 in JavaScript.
- The `search` filter (`ilike` on email and name) is not modelled, nor the upsert's conflict-on-email merge. The listing and the upsert count come from the database.
- `CampaignProcess.Matches`: JavaScript's `===` between a numeric campaign id and a string one is not modelled. Ids are integers on both sides.
- Whether BullMQ accepts `moveToCompleted`/`moveToFailed` on a job without a lock token is part of the per-job oracle (`resolveOk`, `failMoveOk`).
- `SubscribersPage.Run`: chunk replies are applied in the order the chunks were parsed. Replies that arrive after a reset or a new file are not modelled.
- The ledger is a map, so duplicate subscriber ids in one link insert collapse into one row.
- `CampaignsApi.CreateCampaign`: the new campaign's status is `Draft`, the table's default. Database-generated columns are not modelled.
- `MailWorker.Handle` takes no ledger, because the handler never touches it.
- The compiled `dist-worker` copies of the mailer and worker are not part of this model.
- The dispatch step that enqueues a campaign's jobs is not part of this model.

## Findings

| source | as written | input that shows it | evidently intended | confidence | as-written member | corrected member |
|---|---|---|---|---|---|---|
| src/pages/api/queue/worker.ts:21-24 | compares the header with the template `Bearer ${process.env.CRON_SECRET}`; an unset secret renders as the text `undefined` | `CRON_SECRET` unset, header `Authorization: Bearer undefined` is authorised and the batch runs | no request is authorised unless a non-empty secret is configured and matched | not executed; high | `QueueWorker.UnsetSecretRunsBatch` | `QueueWorker.HandleCorrected` |
| src/pages/subscribers.tsx:73-86 | `json.inserted ?? json.count ?? rows.length` is added for any JSON answer, including `{error}` with status 500 | a chunk of 100 rows whose upsert fails: the counter grows by 100 while nothing was inserted | only a successful answer adds to the uploaded count | not executed; medium | `SubscribersPage.RejectedUploadCounted` | `SubscribersPage.AddedMatchesServer` |
