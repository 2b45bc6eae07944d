/**
 * Message extraction from forum topics (`message_actions.py`): the paging
 * loop over one topic with its stop rule and time-window filter, the
 * gathering of every topic's messages in `extract_messages`, and the window
 * bounds of `get_extraction_time_range`.
 *
 * A topic's pages come from an abstract page source: a function from a
 * start offset to the messages of the page starting there. The conversion
 * of a UTC time to the forum's local time is an abstract function too.
 */
module MessageActions {
  import opened Wrappers
  import opened Timestamps

  /** One message of a page, as `get_messages_details_bi` reads it. */
  datatype Message = Message(user: string, id: int, creation: DateTime, edition: Option<DateTime>,
                             content: string)

  /** A row of the topics scope: the forum, the topic number and the forum's timezone. */
  datatype Topic = Topic(forumSource: string, topicNumber: int, timezone: string)

  // ---------------------------------------------------------------------
  // Time-window filter
  // ---------------------------------------------------------------------

  /** `Series.between(lo, hi)`: both bounds included; a null time is never between. */
  predicate Between(t: Option<DateTime>, lo: DateTime, hi: DateTime)
  {
    t.Some? && NotAfter(lo, t.value) && NotAfter(t.value, hi)
  }

  /** A message is kept when it was created in the window and never edited, or edited in the window. */
  predicate Kept(m: Message, lo: DateTime, hi: DateTime)
  {
    (Between(Some(m.creation), lo, hi) && m.edition.None?) || Between(m.edition, lo, hi)
  }

  /** The kept messages of one page, in page order. */
  function KeepInWindow(page: seq<Message>, lo: DateTime, hi: DateTime): (r: seq<Message>)
    ensures forall m :: m in r <==> m in page && Kept(m, lo, hi)
    ensures |r| <= |page|
    decreases |page|
  {
    if |page| == 0 then []
    else
      var rest := KeepInWindow(page[1..], lo, hi);
      assert forall m :: m in page <==> m == page[0] || m in page[1..];
      if Kept(page[0], lo, hi) then [page[0]] + rest else rest
  }

  /** An edited message is judged by its edition time alone, whatever its creation time. */
  lemma EditedJudgedByEdition(m: Message, lo: DateTime, hi: DateTime)
    requires m.edition.Some?
    ensures Kept(m, lo, hi) <==> NotAfter(lo, m.edition.value) && NotAfter(m.edition.value, hi)
  {
  }

  // ---------------------------------------------------------------------
  // Paging (`extract_messages_from_topic`)
  // ---------------------------------------------------------------------

  /** The ids of a page's messages. */
  function Ids(page: seq<Message>): set<int>
  {
    set m | m in page :: m.id
  }

  /**
   * The pages read from offset `start` with the ids in `seen` already met,
   * in reading order: reading stops before the first page holding an id
   * already met, and the offset moves on by each page's length. `None` when
   * `fuel` pages were read without meeting such a page.
   */
  function PagesRead(pages: nat -> seq<Message>, start: nat, seen: set<int>, fuel: nat): Option<seq<seq<Message>>>
    decreases fuel
  {
    if fuel == 0 then None
    else
      var page := pages(start);
      if Ids(page) * seen != {} then Some([])
      else match PagesRead(pages, start + |page|, seen + Ids(page), fuel - 1)
        case None => None
        case Some(rest) => Some([page] + rest)
  }

  /** The offset reached after reading some pages. */
  function Offset(read: seq<seq<Message>>): nat
  {
    if |read| == 0 then 0 else |read[0]| + Offset(read[1..])
  }

  /** The ids met in some pages. */
  function IdsOf(read: seq<seq<Message>>): set<int>
  {
    if |read| == 0 then {} else Ids(read[0]) + IdsOf(read[1..])
  }

  /** Reading one more page prepends it to what is read after it. */
  lemma OffsetCons(page: seq<Message>, rest: seq<seq<Message>>)
    ensures Offset([page] + rest) == |page| + Offset(rest)
    ensures IdsOf([page] + rest) == Ids(page) + IdsOf(rest)
  {
    assert ([page] + rest)[1..] == rest;
  }

  /**
   * Page `i` of the pages read is the page at the offset the pages before it
   * reach, and shares no id with those pages or with the ids met before.
   */
  predicate FreshAt(pages: nat -> seq<Message>, start: nat, seen: set<int>, read: seq<seq<Message>>, i: nat)
    requires i < |read|
  {
    read[i] == pages(start + Offset(read[..i])) && Ids(read[i]) * (seen + IdsOf(read[..i])) == {}
  }

  /** The stop rule, first half: every page read is fresh in the sense of `FreshAt`. */
  lemma {:induction false} PagesReadAreFresh(pages: nat -> seq<Message>, start: nat, seen: set<int>, fuel: nat,
                                             read: seq<seq<Message>>)
    requires PagesRead(pages, start, seen, fuel) == Some(read)
    ensures forall i: nat :: i < |read| ==> FreshAt(pages, start, seen, read, i)
    decreases fuel
  {
    var page := pages(start);
    if Ids(page) * seen == {} {
      var rest := PagesRead(pages, start + |page|, seen + Ids(page), fuel - 1).value;
      assert read == [page] + rest;
      PagesReadAreFresh(pages, start + |page|, seen + Ids(page), fuel - 1, rest);
      forall i: nat | i < |read|
        ensures FreshAt(pages, start, seen, read, i)
      {
        if i == 0 {
          assert read[..i] == [];
        } else {
          FreshCons(pages, start, seen, page, rest, i);
        }
      }
    }
  }

  /** A fresh page after the first of the pages read after `page` is fresh after `page` too. */
  lemma FreshCons(pages: nat -> seq<Message>, start: nat, seen: set<int>, page: seq<Message>,
                  rest: seq<seq<Message>>, i: nat)
    requires 0 < i <= |rest|
    requires FreshAt(pages, start + |page|, seen + Ids(page), rest, i - 1)
    ensures FreshAt(pages, start, seen, [page] + rest, i)
  {
    var read := [page] + rest;
    assert read[..i] == [page] + rest[..i - 1];
    OffsetCons(page, rest[..i - 1]);
    assert read[i] == rest[i - 1];
  }

  /**
   * The stop rule, second half: the page at the offset all the pages read
   * reach repeats an id met before, which is what ends the reading.
   */
  lemma {:induction false} ReadingStopsAtRepeat(pages: nat -> seq<Message>, start: nat, seen: set<int>, fuel: nat,
                                                read: seq<seq<Message>>)
    requires PagesRead(pages, start, seen, fuel) == Some(read)
    ensures Ids(pages(start + Offset(read))) * (seen + IdsOf(read)) != {}
    decreases fuel
  {
    var page := pages(start);
    if Ids(page) * seen == {} {
      var rest := PagesRead(pages, start + |page|, seen + Ids(page), fuel - 1).value;
      assert read == [page] + rest;
      ReadingStopsAtRepeat(pages, start + |page|, seen + Ids(page), fuel - 1, rest);
      OffsetCons(page, rest);
      assert seen + IdsOf(read) == (seen + Ids(page)) + IdsOf(rest);
    } else {
      assert read == [];
    }
  }

  /**
   * An empty page moves neither the offset nor the ids met, so reading it
   * again and again never stops: no amount of fuel is enough.
   */
  lemma {:induction false} EmptyPageNeverStops(pages: nat -> seq<Message>, start: nat, seen: set<int>, fuel: nat)
    requires pages(start) == []
    ensures PagesRead(pages, start, seen, fuel).None?
    decreases fuel
  {
    if fuel > 0 {
      assert Ids(pages(start)) == {};
      assert seen + Ids(pages(start)) == seen;
      EmptyPageNeverStops(pages, start, seen, fuel - 1);
    }
  }

  /** The kept messages of the pages read, page after page. */
  function KeptOf(read: seq<seq<Message>>, lo: DateTime, hi: DateTime): seq<Message>
    decreases |read|
  {
    if |read| == 0 then [] else KeptOf(read[..|read| - 1], lo, hi) + KeepInWindow(read[|read| - 1], lo, hi)
  }

  /** The kept messages of the pages read are the messages of those pages that lie in the window. */
  lemma {:induction false} KeptOfMembers(read: seq<seq<Message>>, lo: DateTime, hi: DateTime)
    ensures forall m :: m in KeptOf(read, lo, hi) <==> exists i :: 0 <= i < |read| && m in read[i] && Kept(m, lo, hi)
    decreases |read|
  {
    if |read| > 0 {
      var init := read[..|read| - 1];
      KeptOfMembers(init, lo, hi);
      assert forall i :: 0 <= i < |init| ==> init[i] == read[i];
    }
  }

  /** How reading a topic ends: stopped with its messages (`None` when none was kept), or out of fuel. */
  datatype Paging = Stopped(messages: Option<seq<Message>>) | OutOfFuel

  /** What `extract_messages_from_topic` returns for local window bounds `lo` and `hi`. */
  function TopicMessages(pages: nat -> seq<Message>, lo: DateTime, hi: DateTime, fuel: nat): Paging
  {
    match PagesRead(pages, 0, {}, fuel)
    case None => OutOfFuel
    case Some(read) =>
      var kept := KeptOf(read, lo, hi);
      Stopped(if kept == [] then None else Some(kept))
  }

  /** The topic yields `None` exactly when no page read holds a kept message. */
  lemma NoneIffNothingKept(pages: nat -> seq<Message>, lo: DateTime, hi: DateTime, fuel: nat)
    requires PagesRead(pages, 0, {}, fuel).Some?
    ensures var read := PagesRead(pages, 0, {}, fuel).value;
            TopicMessages(pages, lo, hi, fuel) == Stopped(None) <==>
            forall i, m :: 0 <= i < |read| && m in read[i] ==> !Kept(m, lo, hi)
  {
    var read := PagesRead(pages, 0, {}, fuel).value;
    var kept := KeptOf(read, lo, hi);
    KeptOfMembers(read, lo, hi);
    if kept != [] {
      assert kept[0] in kept;
    }
  }

  /** Some pages glued together in order. */
  function Flatten(parts: seq<seq<Message>>): seq<Message>
  {
    if |parts| == 0 then [] else Flatten(parts[..|parts| - 1]) + parts[|parts| - 1]
  }

  /** Parts that are all non-empty glue to an empty sequence only when there are none. */
  lemma FlattenEmpty(parts: seq<seq<Message>>)
    requires forall k :: 0 <= k < |parts| ==> parts[k] != []
    ensures Flatten(parts) == [] <==> parts == []
  {
    if |parts| > 0 {
      assert parts[|parts| - 1] != [];
    }
  }

  /** `None` when nothing was read yet ended the reading; otherwise the pages read before, then those. */
  function Prepend(read: seq<seq<Message>>, rest: Option<seq<seq<Message>>>): Option<seq<seq<Message>>>
  {
    match rest
    case None => None
    case Some(r) => Some(read + r)
  }

  /**
   * Reading from offset `start` with the ids in `seen` met and `left` pages
   * to go, after the pages `read`, reads what reading from the first page
   * with `fuel` pages to go reads.
   */
  predicate Resumes(pages: nat -> seq<Message>, fuel: nat, read: seq<seq<Message>>, start: nat, seen: set<int>, left: nat)
  {
    PagesRead(pages, 0, {}, fuel) == Prepend(read, PagesRead(pages, start, seen, left))
  }

  /** A page sharing no id with those met is read, and reading goes on after it. */
  lemma PagesReadStep(pages: nat -> seq<Message>, fuel: nat, read: seq<seq<Message>>, start: nat, seen: set<int>,
                      left: nat, page: seq<Message>)
    requires Resumes(pages, fuel, read, start, seen, left)
    requires left > 0 && page == pages(start) && Ids(page) * seen == {}
    ensures Resumes(pages, fuel, read + [page], start + |page|, seen + Ids(page), left - 1)
  {
    match PagesRead(pages, start + |page|, seen + Ids(page), left - 1)
    case None =>
    case Some(rest) =>
      assert read + ([page] + rest) == (read + [page]) + rest;
  }

  /** Collecting one more page's kept part, when non-empty, extends the kept messages by it. */
  lemma CollectStep(parts: seq<seq<Message>>, read: seq<seq<Message>>, page: seq<Message>, lo: DateTime, hi: DateTime)
    requires Flatten(parts) == KeptOf(read, lo, hi)
    ensures var filtered := KeepInWindow(page, lo, hi);
            Flatten(if filtered != [] then parts + [filtered] else parts) == KeptOf(read + [page], lo, hi)
  {
    var filtered := KeepInWindow(page, lo, hi);
    assert (read + [page])[..|read|] == read;
    if filtered != [] {
      assert (parts + [filtered])[..|parts|] == parts;
    } else {
      assert KeptOf(read, lo, hi) + filtered == KeptOf(read, lo, hi);
    }
  }

  /**
   * `extract_messages_from_topic`'s loop over the pages, with at most `fuel`
   * pages read: the kept part of each new page is collected when non-empty.
   */
  method ExtractFromTopic(pages: nat -> seq<Message>, lo: DateTime, hi: DateTime, fuel: nat) returns (r: Paging)
    ensures r == TopicMessages(pages, lo, hi, fuel)
  {
    var start: nat := 0;
    var seen: set<int> := {};
    var topicMessages: seq<seq<Message>> := [];
    var left := fuel;
    ghost var read: seq<seq<Message>> := [];
    assert Prepend(read, PagesRead(pages, start, seen, left)) == PagesRead(pages, 0, {}, fuel) by {
      match PagesRead(pages, 0, {}, fuel)
      case None =>
      case Some(r) => assert [] + r == r;
    }
    while true
      invariant Resumes(pages, fuel, read, start, seen, left)
      invariant Flatten(topicMessages) == KeptOf(read, lo, hi)
      invariant forall k :: 0 <= k < |topicMessages| ==> topicMessages[k] != []
      decreases left
    {
      if left == 0 {
        return OutOfFuel;
      }
      var page := pages(start);
      var currentIds := Ids(page);
      if currentIds * seen != {} {
        break;
      }
      PagesReadStep(pages, fuel, read, start, seen, left, page);
      CollectStep(topicMessages, read, page, lo, hi);
      seen := seen + currentIds;
      start := start + |page|;
      var filtered := KeepInWindow(page, lo, hi);
      if filtered != [] {
        topicMessages := topicMessages + [filtered];
      }
      read := read + [page];
      left := left - 1;
    }
    assert PagesRead(pages, 0, {}, fuel) == Some(read + []);
    assert read + [] == read;
    FlattenEmpty(topicMessages);
    if topicMessages == [] {
      return Stopped(None);
    }
    return Stopped(Some(Flatten(topicMessages)));
  }

  // ---------------------------------------------------------------------
  // Window bounds (`get_extraction_time_range`)
  // ---------------------------------------------------------------------

  /** The extraction window in UTC; a bound is null when it could not be read. */
  datatype Window = Window(min: Option<DateTime>, max: Option<DateTime>)

  /**
   * `get_extraction_time_range`: the lower bound is the need's watermark,
   * coerced; the upper bound is the gameday's end (its date and time glued
   * with a space, read strictly) or the current time when that comes first.
   */
  function ExtractionRange(watermark: Cell, endDate: string, endTime: string, now: DateTime): Result<Window>
  {
    var end :- ToDatetime(Text(endDate + " " + endTime));
    var max := if end.Some? && Before(now, end.value) then Some(now) else end;
    Ok(Window(ToDatetimeCoerce(watermark), max))
  }

  /**
   * The bounds as the source computes them: an unreadable watermark gives a
   * null lower bound, an unreadable gameday end raises, and the upper bound
   * is the earlier of the gameday's end and now (null when the end is null).
   */
  lemma ExtractionBounds(watermark: Cell, endDate: string, endTime: string, now: DateTime)
    ensures var r := ExtractionRange(watermark, endDate, endTime, now);
            var end := ToDatetime(Text(endDate + " " + endTime));
            (r.Ok? <==> end.Ok?)
            && (r.Ok? ==> r.value.min == ToDatetimeCoerce(watermark)
                          && (r.value.max.None? <==> end.value.None?)
                          && (r.value.max.Some? ==>
                                NotAfter(r.value.max.value, now) && NotAfter(r.value.max.value, end.value.value)
                                && (r.value.max.value == now || r.value.max.value == end.value.value)))
  {
    var end := ToDatetime(Text(endDate + " " + endTime));
    if end.Ok? && end.value.Some? {
      BeforeNotAfter(now, end.value.value);
    }
  }

  // ---------------------------------------------------------------------
  // Gathering the topics (`extract_messages`)
  // ---------------------------------------------------------------------

  /** How message extraction ends: the messages, a program exit, or a topic read without end. */
  datatype Extraction = Extracted(messages: seq<Message>) | Exit(error: string) | Unfinished

  /**
   * One topic's extraction: the UTC bounds are rendered in the forum's local
   * time to the second, which raises for a null bound.
   */
  function TopicExtraction(pages: nat -> seq<Message>, timezone: string, w: Window,
                           localize: (string, DateTime) -> DateTime, fuel: nat): Result<Paging>
  {
    if w.min.None? || w.max.None? then Err("NaTType does not support strftime")
    else Ok(TopicMessages(pages, WholeSecond(localize(timezone, w.min.value)),
                          WholeSecond(localize(timezone, w.max.value)), fuel))
  }

  /** The topics' results with the `None` ones dropped, concatenated in topic order; a failed topic exits. */
  function Gather(results: seq<Result<Paging>>): Extraction
    decreases |results|
  {
    if |results| == 0 then Extracted([])
    else match results[0]
      case Err(e) => Exit(e)
      case Ok(OutOfFuel) => Unfinished
      case Ok(Stopped(m)) =>
        match Gather(results[1..])
        case Extracted(rest) => Extracted((if m.Some? then m.value else []) + rest)
        case other => other
  }

  /** The gathered messages are exactly those of the topics that returned some. */
  lemma {:induction false} GatherMembers(results: seq<Result<Paging>>)
    requires Gather(results).Extracted?
    ensures forall i :: 0 <= i < |results| ==> results[i].Ok? && results[i].value.Stopped?
    ensures forall x :: x in Gather(results).messages <==>
              exists i :: 0 <= i < |results| && results[i].value.messages.Some?
                          && x in results[i].value.messages.value
    decreases |results|
  {
    if |results| > 0 {
      GatherMembers(results[1..]);
      forall i | 1 <= i < |results|
        ensures results[i] == results[1..][i - 1]
      {
      }
    }
  }

  /** `extract_messages`: nothing is fetched when the window is empty; otherwise every topic is read. */
  function ExtractMessages(topics: seq<Topic>, pagesOf: Topic -> (nat -> seq<Message>), w: Window,
                           localize: (string, DateTime) -> DateTime, fuel: nat): Extraction
  {
    if w.min.Some? && w.max.Some? && !Before(w.min.value, w.max.value) then Extracted([])
    else Gather(seq(|topics|, i requires 0 <= i < |topics| =>
                  TopicExtraction(pagesOf(topics[i]), topics[i].timezone, w, localize, fuel)))
  }

  /**
   * Every extracted message comes from a page read of one topic and lies in
   * that topic's window, rendered in its local time; and with a null bound,
   * any topic makes the program exit.
   */
  lemma ExtractedMessagesKept(topics: seq<Topic>, pagesOf: Topic -> (nat -> seq<Message>), w: Window,
                              localize: (string, DateTime) -> DateTime, fuel: nat, x: Message)
    requires ExtractMessages(topics, pagesOf, w, localize, fuel).Extracted?
    requires x in ExtractMessages(topics, pagesOf, w, localize, fuel).messages
    ensures w.min.Some? && w.max.Some? && Before(w.min.value, w.max.value)
    ensures exists i :: 0 <= i < |topics|
              && var pages := pagesOf(topics[i]);
                 var read := PagesRead(pages, 0, {}, fuel);
                 read.Some? && (exists j :: 0 <= j < |read.value| && x in read.value[j])
                 && Kept(x, WholeSecond(localize(topics[i].timezone, w.min.value)),
                         WholeSecond(localize(topics[i].timezone, w.max.value)))
  {
    var results := seq(|topics|, i requires 0 <= i < |topics| =>
                     TopicExtraction(pagesOf(topics[i]), topics[i].timezone, w, localize, fuel));
    if w.min.Some? && w.max.Some? && !Before(w.min.value, w.max.value) {
      assert false;
    } else {
      GatherMembers(results);
      var i :| 0 <= i < |results| && results[i].value.messages.Some? && x in results[i].value.messages.value;
      assert results[i].Ok?;
      var lo := WholeSecond(localize(topics[i].timezone, w.min.value));
      var hi := WholeSecond(localize(topics[i].timezone, w.max.value));
      var read := PagesRead(pagesOf(topics[i]), 0, {}, fuel).value;
      assert x in KeptOf(read, lo, hi);
      KeptOfMembers(read, lo, hi);
      if !Before(w.min.value, w.max.value) {
        assert false;
      }
    }
  }

  /** A null bound with at least one topic makes the program exit (or never end). */
  lemma NullBoundExits(topics: seq<Topic>, pagesOf: Topic -> (nat -> seq<Message>), w: Window,
                       localize: (string, DateTime) -> DateTime, fuel: nat)
    requires w.min.None? || w.max.None?
    ensures ExtractMessages(topics, pagesOf, w, localize, fuel).Extracted? <==> |topics| == 0
  {
    if |topics| > 0 {
      var results := seq(|topics|, i requires 0 <= i < |topics| =>
                       TopicExtraction(pagesOf(topics[i]), topics[i].timezone, w, localize, fuel));
      assert results[0].Err?;
    }
  }
}
