/** `download`: fetch the gzipped prebuilt binary and gunzip it in memory. The
    response and the gunzip stream are modelled by the sequence of events
    their listeners receive; the `hasCalledBack` flag lets only the first
    terminal event reach the callback. */
module Downloader {
  import opened JsStrings
  import opened Outcomes

  newtype Byte = x: int | 0 <= x < 0x100

  type Bytes = seq<Byte>

  const DownloadHost := Text("https://download.newrelic.com/")
  const RemotePath := Text("nodejs_agent/builds/")
  const FailedDownload := Text("Failed to download ")
  const FailedUnzip := Text("Failed to unzip ")

  /** `DOWNLOAD_HOST + REMOTE_PATH + fileName`. */
  function DownloadUrl(packageFile: JsString): JsString
  {
    DownloadHost + RemotePath + packageFile
  }

  /** What a listener receives once the status is 200: a decompressed chunk
      (`data` on the gunzip stream), an `error` on the response, an `error` on
      the gunzip stream, or the gunzip stream's `end`. */
  datatype Event = Data(chunk: Bytes) | ResponseError(err: Fault) | UnzipError(err: Fault) | UnzipEnd

  /** How `https.get` went: the request itself failed, or a response arrived
      with a status code and, when it is 200, a stream of events. */
  datatype Response = RequestFailed(err: Fault) | Responded(status: nat, events: seq<Event>)

  /** The state the listeners share, and the callbacks made so far. */
  datatype Stream = Stream(hasCalledBack: bool, buffers: seq<Bytes>, size: nat, calls: seq<Result<Bytes>>)

  /** The chunks laid end to end. */
  function Flatten(bs: seq<Bytes>): Bytes
  {
    if bs == [] then [] else Flatten(bs[..|bs| - 1]) + bs[|bs| - 1]
  }

  /** The sum of the chunk lengths. */
  function TotalSize(bs: seq<Bytes>): nat
  {
    if bs == [] then 0 else TotalSize(bs[..|bs| - 1]) + |bs[|bs| - 1]|
  }

  lemma {:induction false} FlattenSize(bs: seq<Bytes>)
    ensures |Flatten(bs)| == TotalSize(bs)
  {
    if bs != [] {
      FlattenSize(bs[..|bs| - 1]);
    }
  }

  /** `Buffer.concat(list, totalLength)`: the chunks laid end to end, cut or
      zero-filled to `totalLength`. */
  function BufferConcat(list: seq<Bytes>, totalLength: nat): (r: Bytes)
    ensures |r| == totalLength
    ensures totalLength == TotalSize(list) ==> r == Flatten(list)
  {
    var all := Flatten(list);
    FlattenSize(list);
    if totalLength <= |all| then all[..totalLength]
    else all + seq(totalLength - |all|, _ => 0 as Byte)
  }

  /** The listener state every callback relies on: the flag is set exactly
      when a callback was made, at most one was, and `size` is the byte count
      of the buffers. */
  predicate Consistent(st: Stream) {
    && |st.calls| <= 1
    && (st.hasCalledBack <==> |st.calls| == 1)
    && st.size == TotalSize(st.buffers)
  }

  /** The callback a terminal event makes when it is the first. */
  function Verdict(url: JsString, e: Event, body: Bytes): Result<Bytes>
    requires !e.Data?
  {
    match e
    case ResponseError(err) => Err(Fault(FailedDownload + url + ColonSpace + Describe(err)))
    case UnzipError(err) => Err(Fault(FailedUnzip + url + ColonSpace + Describe(err)))
    case UnzipEnd => Ok(body)
  }

  /** One event handed to its listener: a chunk is buffered, and a terminal
      event calls back with its verdict unless a callback was already made. */
  function Feed(url: JsString, st: Stream, e: Event): Stream
  {
    match e
    case Data(chunk) => st.(buffers := st.buffers + [chunk], size := st.size + |chunk|)
    case _ =>
      if st.hasCalledBack then st
      else st.(hasCalledBack := true, calls := st.calls + [Verdict(url, e, BufferConcat(st.buffers, st.size))])
  }

  /** A chunk handed to a listener that has not called back yet is buffered
      and keeps the state consistent. */
  lemma FeedData(url: JsString, st: Stream, chunk: Bytes)
    requires Consistent(st) && !st.hasCalledBack
    ensures var next := Feed(url, st, Data(chunk));
      next.buffers == st.buffers + [chunk] && Consistent(next) && !next.hasCalledBack
  {
    var next := Feed(url, st, Data(chunk));
    assert next.buffers[..|next.buffers| - 1] == st.buffers;
  }

  /** The events handed to their listeners in order. */
  function FeedAll(url: JsString, st: Stream, events: seq<Event>): (r: Stream)
    ensures Consistent(st) ==> Consistent(r)
    ensures st.hasCalledBack ==> r.calls == st.calls
    decreases |events|
  {
    if events == [] then st else FeedAll(url, Feed(url, st, events[0]), events[1..])
  }

  /** The callbacks `download(cb)` makes, given the response status and the
      events that follow: a status other than 200 fails at once with the code;
      otherwise at most one callback is made. */
  function Download(url: JsString, status: nat, events: seq<Event>): (calls: seq<Result<Bytes>>)
    ensures |calls| <= 1
    ensures status != 200 ==> calls == [Err(Fault(FailedDownload + url + ColonCode + Decimal(status)))]
  {
    if status != 200 then [Err(Fault(FailedDownload + url + ColonCode + Decimal(status)))]
    else FeedAll(url, Stream(false, [], 0, []), events).calls
  }

  /** The index of the first event that is not a chunk, or the length when
      every event is one. */
  function FirstTerminal(events: seq<Event>): (k: nat)
    ensures k <= |events|
    ensures forall j | 0 <= j < k :: events[j].Data?
    ensures k < |events| ==> !events[k].Data?
  {
    if events == [] || !events[0].Data? then 0 else 1 + FirstTerminal(events[1..])
  }

  /** The chunks among the events, in order. */
  function Chunks(events: seq<Event>): seq<Bytes>
  {
    if events == [] then []
    else (if events[0].Data? then [events[0].chunk] else []) + Chunks(events[1..])
  }

  /** A leading chunk is the first of the chunks in any prefix that holds it. */
  lemma ChunksLeadingData(events: seq<Event>, k: nat)
    requires 1 <= k <= |events| && events[0].Data?
    ensures Chunks(events[..k]) == [events[0].chunk] + Chunks(events[1..][..k - 1])
  {
    assert events[..k][1..] == events[1..][..k - 1];
  }

  /** The fold with a fresh flag ends in the verdict of the first terminal
      event over everything buffered before it, or in no callback at all. */
  lemma {:induction false} FeedAllFirstSignal(url: JsString, st: Stream, events: seq<Event>)
    requires Consistent(st) && !st.hasCalledBack
    ensures
      var k := FirstTerminal(events);
      var body := Flatten(st.buffers + Chunks(events[..k]));
      FeedAll(url, st, events).calls ==
        if k == |events| then [] else [Verdict(url, events[k], body)]
    decreases |events|
  {
    if events == [] {
    } else if events[0].Data? {
      var next := Feed(url, st, events[0]);
      FeedData(url, st, events[0].chunk);
      FeedAllFirstSignal(url, next, events[1..]);
      var k := FirstTerminal(events);
      ChunksLeadingData(events, k);
      assert st.buffers + Chunks(events[..k]) == next.buffers + Chunks(events[1..][..k - 1]);
    } else {
      var next := Feed(url, st, events[0]);
      assert next.hasCalledBack && next.calls == [Verdict(url, events[0], Flatten(st.buffers))] by {
        FlattenSize(st.buffers);
      }
      assert events[..0] == [];
      assert st.buffers + [] == st.buffers;
    }
  }

  /** First signal wins: a download with status 200 calls back once if some
      response error, gunzip error or end arrives, and then with the verdict
      of the first of them; a successful body is every chunk received before
      the end, in order, and as long as their lengths add up to. */
  lemma DownloadFirstSignalWins(url: JsString, events: seq<Event>)
    ensures
      var k := FirstTerminal(events);
      Download(url, 200, events) ==
        if k == |events| then [] else [Verdict(url, events[k], Flatten(Chunks(events[..k])))]
    ensures
      var calls := Download(url, 200, events);
      |calls| == 1 && calls[0].Ok? ==> |calls[0].value| == TotalSize(Chunks(events[..FirstTerminal(events)]))
  {
    FeedAllFirstSignal(url, Stream(false, [], 0, []), events);
    assert [] + Chunks(events[..FirstTerminal(events)]) == Chunks(events[..FirstTerminal(events)]);
    FlattenSize(Chunks(events[..FirstTerminal(events)]));
  }
}
