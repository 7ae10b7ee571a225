/**
 * The subscribers page of src/pages/subscribers.tsx: the page count and the
 * Previous/Next buttons of the list, and the CSV upload, whose parser hands
 * over chunks of rows that are posted to `/api/subscribers` while the first
 * five rows are kept as a preview and the inserted rows are counted.
 */
module SubscribersPage {
  import opened Wrappers
  import SubscribersApi
  import Js

  // ---------------------------------------------------------------------
  // Pagination
  // ---------------------------------------------------------------------

  /** `LIMIT`: rows per page. */
  const PageSize: nat := 50

  /** `Math.ceil(totalCount / LIMIT)`. */
  function TotalPages(totalCount: nat): (pages: nat)
    ensures pages * PageSize >= totalCount
    ensures pages > 0 ==> (pages - 1) * PageSize < totalCount
  {
    (totalCount + PageSize - 1) / PageSize
  }

  /** The controls are rendered only when there is more than one page, that is, more than 50 rows. */
  predicate ShowControls(totalCount: nat) {
    TotalPages(totalCount) > 1
  }

  lemma ShowControlsIffMoreThanOnePage(totalCount: nat)
    ensures ShowControls(totalCount) <==> totalCount > PageSize
    ensures TotalPages(totalCount) == 0 <==> totalCount == 0
  {
  }

  /** `Math.max(1, p - 1)`. */
  function Previous(page: int): (p: int)
    ensures p >= 1
    ensures page > 1 ==> p == page - 1
    ensures page <= 1 ==> p == 1
  {
    if page - 1 > 1 then page - 1 else 1
  }

  /** `Math.min(totalPages, p + 1)`. */
  function Next(page: int, totalPages: nat): (p: int)
    ensures p <= totalPages
    ensures page < totalPages ==> p == page + 1
    ensures page >= totalPages ==> p == totalPages
  {
    if page + 1 < totalPages then page + 1 else totalPages
  }

  /**
   * From a page in range, Previous and Next land in range, and Previous
   * undoes Next below the last page.
   */
  lemma NavigationStaysInRange(page: int, totalCount: nat)
    requires ShowControls(totalCount) && 1 <= page <= TotalPages(totalCount)
    ensures 1 <= Previous(page) <= TotalPages(totalCount)
    ensures 1 <= Next(page, TotalPages(totalCount)) <= TotalPages(totalCount)
    ensures page < TotalPages(totalCount) ==> Previous(Next(page, TotalPages(totalCount))) == page
  {
  }

  // ---------------------------------------------------------------------
  // Upload
  // ---------------------------------------------------------------------

  type Row = SubscribersApi.Subscriber

  /** How many rows the preview keeps. */
  const PreviewSize: nat := 5

  /** The response to one chunk's `POST`: its JSON body with `ok`, or a body that is not JSON. */
  datatype ChunkReply = Json(ok: bool, inserted: Option<nat>, count: Option<nat>) | NotJson

  /** The JSON the subscribers API answers a chunk with. */
  function ReplyOf(r: SubscribersApi.Response): ChunkReply {
    if r.Inserted? then Json(true, Some(r.inserted), None) else Json(false, None, None)
  }

  /**
   * `json.inserted ?? json.count ?? rows.length`, as written: an error
   * answer has neither field, so the whole chunk is counted; a body that is
   * not JSON throws before the counter and adds nothing.
   */
  function AddedAsWritten(rows: seq<Row>, reply: ChunkReply): nat {
    match reply
    case NotJson => 0
    case Json(_, inserted, count) => inserted.GetOr(count.GetOr(|rows|))
  }

  /** The server rejects a chunk, nothing is inserted, yet the counter grows by the chunk's size. */
  lemma RejectedChunkCountedAsWritten(rows: seq<Row>, message: string)
    requires |rows| > 0
    ensures SubscribersApi.AddSubscribers(SubscribersApi.Rows(rows), Err(message)) == SubscribersApi.ServerError(message)
    ensures AddedAsWritten(rows, ReplyOf(SubscribersApi.AddSubscribers(SubscribersApi.Rows(rows), Err(message)))) == |rows|
  {
  }

  /** The evident intent: only a successful answer counts, with the same fallbacks. */
  function Added(rows: seq<Row>, reply: ChunkReply): (n: nat)
    ensures n > 0 ==> reply.Json? && reply.ok
    ensures reply.Json? && reply.ok ==> n == AddedAsWritten(rows, reply)
  {
    match reply
    case NotJson => 0
    case Json(ok, inserted, count) => if ok then inserted.GetOr(count.GetOr(|rows|)) else 0
  }

  /** With the corrected count, each chunk adds exactly what the server reports as inserted. */
  lemma AddedMatchesServer(rows: seq<Row>, answer: Result<Option<nat>, string>)
    requires |rows| > 0
    ensures var r := SubscribersApi.AddSubscribers(SubscribersApi.Rows(rows), answer);
      Added(rows, ReplyOf(r)) == if r.Inserted? then r.inserted else 0
  {
  }

  /** Which rule credits a chunk's reply to the counter: the page as written, or the evident intent. */
  datatype Counting = AsWritten | Corrected

  /** What one non-empty chunk adds to the counter under a counting rule. */
  function Credit(c: Counting, rows: seq<Row>, reply: ChunkReply): nat {
    match c
    case AsWritten => AddedAsWritten(rows, reply)
    case Corrected => Added(rows, reply)
  }

  /** What happens on the page: a file is dropped or chosen, the parser delivers a chunk (with its reply), or the user resets. */
  datatype Event = NewFile | Chunk(rows: seq<Row>, reply: ChunkReply) | Reset

  /** The preview, the counter, and the chunks posted so far. */
  datatype Upload = Upload(preview: seq<Row>, uploadedCount: nat, posted: seq<seq<Row>>)

  const Initial: Upload := Upload([], 0, [])

  /**
   * One event: a new file or a reset clears the preview and the counter; a
   * chunk is posted only when it has rows, and always extends the preview up
   * to five rows.
   */
  function Apply(c: Counting, u: Upload, e: Event): Upload {
    match e
    case NewFile => u.(preview := [], uploadedCount := 0)
    case Reset => u.(preview := [], uploadedCount := 0)
    case Chunk(rows, reply) =>
      Upload(
        Js.Slice(u.preview + rows, PreviewSize),
        u.uploadedCount + (if |rows| > 0 then Credit(c, rows, reply) else 0),
        u.posted + if |rows| > 0 then [rows] else [])
  }

  function RunWith(c: Counting, events: seq<Event>): Upload
    decreases |events|
  {
    if |events| == 0 then Initial
    else Apply(c, RunWith(c, events[..|events| - 1]), events[|events| - 1])
  }

  /** The page as written. */
  function Run(events: seq<Event>): Upload {
    RunWith(AsWritten, events)
  }

  /** The events after the last new file or reset: the longest suffix made of chunks. */
  function SinceReset(events: seq<Event>): (r: seq<Event>)
    ensures forall e :: e in r ==> e.Chunk?
    ensures |r| <= |events| && r == events[|events| - |r|..]
    ensures |r| < |events| ==> !events[|events| - |r| - 1].Chunk?
    decreases |events|
  {
    if |events| == 0 then []
    else
      var n := |events| - 1;
      if events[n].Chunk? then
        var r := SinceReset(events[..n]);
        assert events[..n][n - |r|..] + [events[n]] == events[n - |r|..];
        r + [events[n]]
      else []
  }

  /** All rows of a run of chunks, in order. */
  function RowsOf(events: seq<Event>): seq<Row>
    requires forall e :: e in events ==> e.Chunk?
  {
    if |events| == 0 then [] else RowsOf(events[..|events| - 1]) + events[|events| - 1].rows
  }

  /** The rows a counting rule credits to a run of chunks. */
  function CountOf(c: Counting, events: seq<Event>): nat
    requires forall e :: e in events ==> e.Chunk?
  {
    if |events| == 0 then 0
    else
      var e := events[|events| - 1];
      CountOf(c, events[..|events| - 1]) + if |e.rows| > 0 then Credit(c, e.rows, e.reply) else 0
  }

  /** Every posted chunk is non-empty and was delivered by the parser. */
  predicate PostedAreChunks(posted: seq<seq<Row>>, events: seq<Event>) {
    forall p :: p in posted ==> |p| > 0 && exists e :: e in events && e.Chunk? && e.rows == p
  }

  /** After any sequence of events the preview is the first five rows parsed since the last new file or reset. */
  lemma {:induction false} RunPreview(c: Counting, events: seq<Event>)
    ensures RunWith(c, events).preview == Js.Slice(RowsOf(SinceReset(events)), PreviewSize)
    decreases |events|
  {
    if |events| > 0 {
      var n := |events| - 1;
      RunPreview(c, events[..n]);
      if events[n].Chunk? {
        RunPreviewChunk(c, events);
      } else {
        SinceResetSnoc(events);
        assert RunWith(c, events) == Apply(c, RunWith(c, events[..n]), events[n]);
      }
    }
  }

  lemma RunPreviewChunk(c: Counting, events: seq<Event>)
    requires |events| > 0 && events[|events| - 1].Chunk?
    requires RunWith(c, events[..|events| - 1]).preview == Js.Slice(RowsOf(SinceReset(events[..|events| - 1])), PreviewSize)
    ensures RunWith(c, events).preview == Js.Slice(RowsOf(SinceReset(events)), PreviewSize)
  {
    var n := |events| - 1;
    var e := events[n];
    var s := SinceReset(events[..n]);
    SinceResetSnoc(events);
    assert (s + [e])[..|s|] == s;
    assert RowsOf(s + [e]) == RowsOf(s) + e.rows;
    Js.SliceAppend(RowsOf(s), e.rows, PreviewSize);
    assert RunWith(c, events) == Apply(c, RunWith(c, events[..n]), e);
  }

  /**
   * The counter holds what the chunks since the last new file or reset were
   * credited with; as written, each non-empty chunk is credited with
   * `inserted ?? count ?? rows.length` of its JSON reply.
   */
  lemma {:induction false} RunCount(c: Counting, events: seq<Event>)
    ensures RunWith(c, events).uploadedCount == CountOf(c, SinceReset(events))
    decreases |events|
  {
    if |events| > 0 {
      var n := |events| - 1;
      RunCount(c, events[..n]);
      if events[n].Chunk? {
        RunCountChunk(c, events);
      } else {
        RunCountReset(c, events);
      }
    }
  }

  lemma RunCountReset(c: Counting, events: seq<Event>)
    requires |events| > 0 && !events[|events| - 1].Chunk?
    ensures RunWith(c, events).uploadedCount == 0 == CountOf(c, SinceReset(events))
  {
    var n := |events| - 1;
    SinceResetSnoc(events);
    assert RunWith(c, events) == Apply(c, RunWith(c, events[..n]), events[n]);
  }

  lemma RunCountChunk(c: Counting, events: seq<Event>)
    requires |events| > 0 && events[|events| - 1].Chunk?
    requires RunWith(c, events[..|events| - 1]).uploadedCount == CountOf(c, SinceReset(events[..|events| - 1]))
    ensures RunWith(c, events).uploadedCount == CountOf(c, SinceReset(events))
  {
    var n := |events| - 1;
    var e := events[n];
    var s := SinceReset(events[..n]);
    SinceResetSnoc(events);
    CountOfSnoc(c, s, e);
    assert RunWith(c, events) == Apply(c, RunWith(c, events[..n]), e);
  }

  /** A chunk extends the events since the last reset; a new file or a reset empties them. */
  lemma SinceResetSnoc(events: seq<Event>)
    requires |events| > 0
    ensures events[|events| - 1].Chunk? ==> SinceReset(events) == SinceReset(events[..|events| - 1]) + [events[|events| - 1]]
    ensures !events[|events| - 1].Chunk? ==> SinceReset(events) == []
  {
  }

  /** Appending one chunk credits it on top of the rest. */
  lemma CountOfSnoc(c: Counting, s: seq<Event>, e: Event)
    requires (forall x :: x in s ==> x.Chunk?) && e.Chunk?
    ensures forall x :: x in s + [e] ==> x.Chunk?
    ensures CountOf(c, s + [e]) == CountOf(c, s) + if |e.rows| > 0 then Credit(c, e.rows, e.reply) else 0
  {
    assert (s + [e])[..|s|] == s;
  }

  /** Every reply since the last reset that is JSON is a successful one. */
  predicate NoRejectedChunk(events: seq<Event>) {
    forall i :: 0 <= i < |events| && events[i].Chunk? && |events[i].rows| > 0 && events[i].reply.Json? ==> events[i].reply.ok
  }

  /**
   * The page as written never counts fewer rows than the corrected one, and
   * the two agree on every run in which the server rejected no chunk.
   */
  lemma {:induction false} CorrectedNeverExceedsAsWritten(events: seq<Event>)
    ensures RunWith(Corrected, events).uploadedCount <= Run(events).uploadedCount
    ensures NoRejectedChunk(events) ==> RunWith(Corrected, events).uploadedCount == Run(events).uploadedCount
    decreases |events|
  {
    if |events| > 0 {
      var n := |events| - 1;
      CorrectedNeverExceedsAsWritten(events[..n]);
      assert NoRejectedChunk(events) ==> NoRejectedChunk(events[..n]) by {
        if NoRejectedChunk(events) {
          forall i | 0 <= i < n ensures events[..n][i] == events[i] { }
        }
      }
    }
  }

  /**
   * A whole upload of one chunk whose upsert fails: the page as written shows
   * every row as uploaded, the corrected page shows none.
   */
  lemma RejectedUploadCounted(rows: seq<Row>, message: string)
    requires |rows| > 0
    ensures var e := [Chunk(rows, ReplyOf(SubscribersApi.AddSubscribers(SubscribersApi.Rows(rows), Err(message))))];
      Run(e).uploadedCount == |rows| && RunWith(Corrected, e).uploadedCount == 0
  {
    var reply := ReplyOf(SubscribersApi.AddSubscribers(SubscribersApi.Rows(rows), Err(message)));
    assert reply == Json(false, None, None);
    var e := [Chunk(rows, reply)];
    assert e[..0] == [];
    assert RunWith(AsWritten, e) == Apply(AsWritten, RunWith(AsWritten, e[..0]), e[0]);
    assert RunWith(Corrected, e) == Apply(Corrected, RunWith(Corrected, e[..0]), e[0]);
  }

  /** Only non-empty chunks delivered by the parser are ever posted. */
  lemma {:induction false} RunPostsChunks(c: Counting, events: seq<Event>)
    ensures PostedAreChunks(RunWith(c, events).posted, events)
    decreases |events|
  {
    if |events| > 0 {
      var n := |events| - 1;
      RunPostsChunks(c, events[..n]);
      assert forall e :: e in events[..n] ==> e in events;
      assert events[n] in events;
    }
  }
}
