/** Log storage of the backend: one bounded vector of log entries, most
    recent first, shared between the storage that the UI pages through and
    the tracing layer that captures new events into it. */
module Logs {
  import opened Prelude
  import opened TsLog

  /** Number of log entries per page */
  const LOG_PAGE_SIZE: nat := 100

  /** Number of entries the default storage keeps */
  const MAX_LOG_ENTRIES: nat := 10_000

  /** chrono's `DateTime<Utc>`; its value is never inspected here. */
  type Timestamp

  datatype LogEntry = LogEntry(timestamp: Timestamp, level: string, target: string, message: string)

  // ---------------------------------------------------------------------------
  // The buffer update and the page slice
  // ---------------------------------------------------------------------------

  /** `insert(0, entry)` followed by `truncate(maxEntries)` when the vector
      has grown past `maxEntries`: the new entry comes first, the older ones
      follow in their order, and whatever lies past the bound is dropped. */
  function InsertFront(logs: seq<LogEntry>, entry: LogEntry, maxEntries: nat): (r: seq<LogEntry>)
    ensures |r| == Min(|logs| + 1, maxEntries)
    ensures 0 < maxEntries ==> r[0] == entry
    ensures forall i :: 0 < i < |r| ==> r[i] == logs[i - 1]
  {
    var grown := [entry] + logs;
    if |grown| > maxEntries then grown[..maxEntries] else grown
  }

  /** A full buffer loses its oldest entry. */
  lemma InsertFrontDropsOldest(logs: seq<LogEntry>, entry: LogEntry, maxEntries: nat)
    requires 0 < maxEntries == |logs|
    ensures InsertFront(logs, entry, maxEntries) == [entry] + logs[..maxEntries - 1]
  {
    var r := InsertFront(logs, entry, maxEntries);
    assert forall i :: 0 <= i < |r| ==> r[i] == ([entry] + logs[..maxEntries - 1])[i];
  }

  /** A buffer within its bound stays within it, and one below its bound
      loses nothing. */
  lemma InsertFrontBounded(logs: seq<LogEntry>, entry: LogEntry, maxEntries: nat)
    requires |logs| <= maxEntries
    ensures |InsertFront(logs, entry, maxEntries)| <= maxEntries
    ensures |logs| < maxEntries ==> InsertFront(logs, entry, maxEntries) == [entry] + logs
  {
  }

  /** `LogStorage::get_page`: entries `page * 100` up to `(page + 1) * 100`
      (or the end), nothing when the page starts past the end. */
  function Page(logs: seq<LogEntry>, page: nat): (r: seq<LogEntry>)
    ensures |r| <= LOG_PAGE_SIZE
    ensures page * LOG_PAGE_SIZE >= |logs| ==> r == []
    ensures page * LOG_PAGE_SIZE < |logs| ==> |r| == Min(LOG_PAGE_SIZE, |logs| - page * LOG_PAGE_SIZE)
    ensures forall k :: 0 <= k < |r| ==> r[k] == logs[page * LOG_PAGE_SIZE + k]
  {
    var start := page * LOG_PAGE_SIZE;
    var end := Min((page + 1) * LOG_PAGE_SIZE, |logs|);
    if start >= |logs| then [] else logs[start..end]
  }

  /** The pages from `page` on, one after the other. */
  ghost function PagesFrom(logs: seq<LogEntry>, page: nat): seq<LogEntry>
    decreases |logs| - page * LOG_PAGE_SIZE
  {
    if page * LOG_PAGE_SIZE >= |logs| then [] else Page(logs, page) + PagesFrom(logs, page + 1)
  }

  lemma {:induction false} PagesFromIsSuffix(logs: seq<LogEntry>, page: nat)
    ensures PagesFrom(logs, page) == if page * LOG_PAGE_SIZE >= |logs| then [] else logs[page * LOG_PAGE_SIZE..]
    decreases |logs| - page * LOG_PAGE_SIZE
  {
    var start := page * LOG_PAGE_SIZE;
    if start < |logs| {
      PagesFromIsSuffix(logs, page + 1);
      var p := Page(logs, page);
      if (page + 1) * LOG_PAGE_SIZE >= |logs| {
        assert p == logs[start..];
      } else {
        assert p == logs[start..start + LOG_PAGE_SIZE];
        assert logs[start..] == p + logs[start + LOG_PAGE_SIZE..];
      }
    }
  }

  /** Paging loses and repeats nothing: the pages read one after the other
      are the whole buffer. */
  lemma PagesCoverBuffer(logs: seq<LogEntry>)
    ensures PagesFrom(logs, 0) == logs
  {
    PagesFromIsSuffix(logs, 0);
  }

  /** Entry `i` of the buffer is entry `i % 100` of page `i / 100`. */
  lemma PageOfIndex(logs: seq<LogEntry>, i: nat)
    requires i < |logs|
    ensures i % LOG_PAGE_SIZE < |Page(logs, i / LOG_PAGE_SIZE)|
    ensures Page(logs, i / LOG_PAGE_SIZE)[i % LOG_PAGE_SIZE] == logs[i]
  {
    var page := i / LOG_PAGE_SIZE;
    assert page * LOG_PAGE_SIZE + i % LOG_PAGE_SIZE == i;
  }

  // ---------------------------------------------------------------------------
  // The shared vector, the storage and the capture layer
  // ---------------------------------------------------------------------------

  /** The vector behind `Arc<RwLock<Vec<LogEntry>>>`; most recent entry first. */
  class LogVec {
    var entries: seq<LogEntry>

    constructor ()
      ensures entries == []
    {
      entries := [];
    }
  }

  class LogStorage {
    const maxEntries: nat
    const logs: LogVec

    ghost predicate Valid()
      reads this, logs
    {
      |logs.entries| <= maxEntries
    }

    /** `LogStorage::new` */
    constructor New(maxEntries: nat)
      ensures Valid() && fresh(logs)
      ensures this.maxEntries == maxEntries && logs.entries == []
    {
      this.maxEntries := maxEntries;
      logs := new LogVec();
    }

    /** `Default for LogStorage`: room for 10 000 entries. */
    constructor Default()
      ensures Valid() && fresh(logs)
      ensures maxEntries == MAX_LOG_ENTRIES && logs.entries == []
    {
      maxEntries := MAX_LOG_ENTRIES;
      logs := new LogVec();
    }

    /** `LogStorage::add_log` */
    method AddLog(entry: LogEntry)
      modifies logs
      ensures Valid()
      ensures logs.entries == InsertFront(old(logs.entries), entry, maxEntries)
    {
      logs.entries := [entry] + logs.entries;
      if |logs.entries| > maxEntries {
        logs.entries := logs.entries[..maxEntries];
      }
    }

    /** `LogStorage::get_page`: reads the buffer and leaves it as it is. */
    method GetPage(page: nat) returns (r: seq<LogEntry>)
      ensures r == Page(logs.entries, page)
    {
      r := Page(logs.entries, page);
    }

    /** `LogStorage::logs_ref`: the storage's own vector, shared rather than
        copied, so that what a capture layer built on it writes is what the
        storage pages through. */
    function LogsRef(): (r: LogVec)
      reads this
      ensures r == logs
    {
      logs
    }
  }

  class LogCaptureLayer {
    const logs: LogVec
    const maxEntries: nat

    /** `LogCaptureLayer::new` */
    constructor (logs: LogVec, maxEntries: nat)
      ensures this.logs == logs && this.maxEntries == maxEntries
    {
      this.logs := logs;
      this.maxEntries := maxEntries;
    }

    /** `Layer::on_event`: the event's level, target and the message its
        visitor extracted become a new entry, stored like `add_log` does. */
    method OnEvent(level: Level, target: string, message: string, now: Timestamp)
      modifies logs
      ensures logs.entries == InsertFront(old(logs.entries), LogEntry(now, LevelName(level), target, message), maxEntries)
    {
      var entry := LogEntry(now, LevelName(level), target, message);
      logs.entries := [entry] + logs.entries;
      if |logs.entries| > maxEntries {
        logs.entries := logs.entries[..maxEntries];
      }
    }
  }

  // ---------------------------------------------------------------------------
  // Message extraction
  // ---------------------------------------------------------------------------

  /** The one-character string `"`: it both starts and ends with a quote, and
      the slice `1..0` of it panics. */
  predicate IsLoneQuote(s: string) {
    |s| == 1 && s[0] == '"'
  }

  predicate IsQuoted(s: string) {
    |s| > 0 && s[0] == '"' && s[|s| - 1] == '"'
  }

  /** Removes one pair of surrounding quotes, if there is one. */
  function StripQuotes(s: string): (r: string)
    requires !IsLoneQuote(s)
    ensures IsQuoted(s) ==> "\"" + r + "\"" == s
    ensures !IsQuoted(s) ==> r == s
  {
    if IsQuoted(s) then s[1..|s| - 1] else s
  }

  /** Quoting then stripping gives back the text. */
  lemma StripQuotesOfQuoted(text: string)
    ensures StripQuotes("\"" + text + "\"") == text
  {
    var s := "\"" + text + "\"";
    assert IsQuoted(s);
    assert s[1..|s| - 1] == text;
  }

  /** The visitor over the `&mut String` that receives an event's message. */
  class MessageVisitor {
    var message: string

    constructor (message: string)
      ensures this.message == message
    {
      this.message := message;
    }

    /** `Visit::record_debug`: only the field named `message` is kept, as its
        Debug text without surrounding quotes. */
    method RecordDebug(fieldName: string, debugText: string)
      requires fieldName == "message" ==> !IsLoneQuote(debugText)
      modifies this
      ensures message == if fieldName == "message" then StripQuotes(debugText) else old(message)
    {
      if fieldName == "message" {
        message := StripQuotes(debugText);
      }
    }
  }
}
