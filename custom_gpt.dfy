/**
 * The string handling of the custom GPT backend adapter
 * (backend/app/gpt/custom_gpt.py): timestamps, the transcript text, the two
 * chat messages, the cookie header parser, and the loop that gathers the
 * streamed answer. The HTTP request itself is not modelled; the stream is the
 * sequence of raw lines it yields.
 */
module CustomGpt {
  import opened Wrappers
  import opened Strings

  // ---------------------------------------------------------------------
  // _format_time

  const SECONDS_PER_DAY := 86400

  /** `H:MM:SS`, the clock part of `str(timedelta)`; the hour is not padded. */
  function Clock(hh: nat, mm: nat, ss: nat): (r: string)
    requires mm < 60 && ss < 60
    ensures |r| >= 7 && '\n' !in r
  {
    assert '\n' !in Decimal(hh) && '\n' !in Pad2(mm) && '\n' !in Pad2(ss);
    Decimal(hh) + ":" + Pad2(mm) + ":" + Pad2(ss)
  }

  /** `str(timedelta(seconds=total))` for a whole, non-negative number of
      seconds: a day count ("1 day, " / "N days, ") only when there is one. */
  function TimedeltaText(total: nat): (r: string)
    ensures |r| >= 7 && '\n' !in r
  {
    var days := total / SECONDS_PER_DAY;
    var rest := total % SECONDS_PER_DAY;
    var clock := Clock(rest / 60 / 60, rest / 60 % 60, rest % 60);
    if days == 0 then clock
    else
      assert '\n' !in Decimal(days);
      Decimal(days) + (if days == 1 then " day, " else " days, ") + clock
  }

  /** `_format_time`: negative times count as zero, the fraction is dropped,
      and the first two characters of the timedelta text are cut off, which
      leaves `MM:SS` below ten hours. */
  function FormatTime(seconds: real): (r: string)
    ensures '\n' !in r
  {
    var clamped := if seconds < 0.0 then 0.0 else seconds;
    var whole: nat := clamped.Floor;
    TimedeltaText(whole)[2..]
  }

  lemma SameDay(s: nat)
    requires s < SECONDS_PER_DAY
    ensures TimedeltaText(s) == Clock(s / 60 / 60, s / 60 % 60, s % 60)
  {
    DivSmall(s, SECONDS_PER_DAY);
  }

  lemma DivSmall(a: nat, b: nat)
    requires a < b
    ensures a / b == 0 && a % b == a
  {
  }

  lemma ShiftHour(s: nat)
    ensures (s + 3600) / 60 % 60 == s / 60 % 60 && (s + 3600) % 60 == s % 60
  {
    var q, r := s / 60, s % 60;
    assert s == 60 * q + r && 0 <= r < 60;
    assert s + 3600 == 60 * (q + 60) + r;
    assert (s + 3600) / 60 == q + 60;
    var h, m := q / 60, q % 60;
    assert q + 60 == 60 * (h + 1) + m;
  }

  lemma FormatTimeOfNat(s: nat)
    ensures FormatTime(s as real) == TimedeltaText(s)[2..]
  {
    assert (s as real).Floor == s;
  }

  lemma FormatTimeUnderTenHours(s: nat)
    requires s < 36000
    ensures FormatTime(s as real) == Pad2(s / 60 % 60) + ":" + Pad2(s % 60)
  {
    FormatTimeOfNat(s);
    SameDay(s);
    var hh := s / 60 / 60;
    assert hh < 10;
    var d := Decimal(hh);
    assert |d| == 1;
    var tail := Pad2(s / 60 % 60) + ":" + Pad2(s % 60);
    assert Clock(hh, s / 60 % 60, s % 60) == d + ":" + tail;
    assert (d + ":" + tail)[2..] == tail;
  }

  lemma FormatTimeTenHoursToADay(s: nat)
    requires 36000 <= s < SECONDS_PER_DAY
    ensures FormatTime(s as real) == ":" + Pad2(s / 60 % 60) + ":" + Pad2(s % 60)
  {
    FormatTimeOfNat(s);
    SameDay(s);
    var hh := s / 60 / 60;
    assert 10 <= hh < 100;
    var d := Decimal(hh);
    assert |d| == 2;
    var tail := ":" + Pad2(s / 60 % 60) + ":" + Pad2(s % 60);
    assert Clock(hh, s / 60 % 60, s % 60) == d + tail;
    assert (d + tail)[2..] == tail;
  }

  lemma FormatTimeNegative(seconds: real)
    requires seconds < 0.0
    ensures FormatTime(seconds) == "00:00"
  {
    FormatTimeUnderTenHours(0);
    assert FormatTime(seconds) == FormatTime(0 as real);
  }

  lemma FormatTimeWholeSeconds(seconds: real)
    requires seconds >= 0.0
    ensures FormatTime(seconds) == FormatTime(seconds.Floor as real)
  {
    assert (seconds.Floor as real).Floor == seconds.Floor;
  }

  lemma FormatTimeDropsHours(s: nat)
    requires s + 3600 < 36000
    ensures FormatTime((s + 3600) as real) == FormatTime(s as real)
  {
    FormatTimeUnderTenHours(s);
    FormatTimeUnderTenHours(s + 3600);
    ShiftHour(s);
  }

  // ---------------------------------------------------------------------
  // Transcript segments

  /** `TranscriptSegment`. */
  datatype Segment = Segment(start: real, end: real, text: string)

  /** A segment as the adapter may receive it: a plain dict with the three
      keys, or an already constructed segment. */
  datatype RawSegment = SegmentDict(start: real, end: real, text: string) | Typed(segment: Segment)

  /** `ensure_segments_type`: dicts become segments with the same fields;
      segments pass through unchanged; length and order are kept. */
  function EnsureSegmentsType(raw: seq<RawSegment>): (r: seq<Segment>)
    ensures |r| == |raw|
    ensures forall i :: 0 <= i < |raw| && raw[i].Typed? ==> r[i] == raw[i].segment
    ensures forall i :: 0 <= i < |raw| && raw[i].SegmentDict? ==>
              r[i] == Segment(raw[i].start, raw[i].end, raw[i].text)
  {
    seq(|raw|, i requires 0 <= i < |raw| =>
      match raw[i]
      case SegmentDict(s, e, t) => Segment(s, e, t)
      case Typed(seg) => seg)
  }

  /** Converting twice is converting once. */
  lemma EnsureSegmentsTypeIdempotent(raw: seq<RawSegment>)
    ensures var once := EnsureSegmentsType(raw);
            EnsureSegmentsType(seq(|once|, i requires 0 <= i < |once| => Typed(once[i]))) == once
  {
  }

  /** One transcript line: "MM:SS - text". */
  function SegmentLine(seg: Segment): string {
    FormatTime(seg.start) + " - " + Strip(seg.text)
  }

  function SegmentLines(segments: seq<Segment>): (lines: seq<string>)
    ensures |lines| == |segments|
    ensures forall i :: 0 <= i < |segments| ==> lines[i] == SegmentLine(segments[i])
  {
    seq(|segments|, i requires 0 <= i < |segments| => SegmentLine(segments[i]))
  }

  /** `_build_segment_text`: the lines joined by newlines. */
  function BuildSegmentText(segments: seq<Segment>): string {
    Join(SegmentLines(segments), "\n")
  }

  lemma NoNewlineAfterStrip(s: string)
    requires '\n' !in s
    ensures '\n' !in Strip(s)
  {
    var lo, hi := StripIsSlice(s);
    forall k | 0 <= k < |Strip(s)| ensures Strip(s)[k] != '\n' {
      assert Strip(s)[k] == s[lo + k];
    }
  }

  /** When no segment text holds a newline, splitting the transcript text at
      newlines gives back exactly one line per segment, in order. */
  lemma BuildSegmentTextLines(segments: seq<Segment>)
    requires segments != []
    requires forall i :: 0 <= i < |segments| ==> '\n' !in segments[i].text
    ensures Split(BuildSegmentText(segments), '\n') == SegmentLines(segments)
  {
    var lines := SegmentLines(segments);
    forall p | p in lines ensures '\n' !in p {
      var i :| 0 <= i < |lines| && lines[i] == p;
      NoNewlineAfterStrip(segments[i].text);
    }
    SplitJoin(lines, '\n');
  }

  /** The transcript text never ends with a newline. */
  lemma BuildSegmentTextNoTrailingNewline(segments: seq<Segment>)
    requires segments != []
    ensures var t := BuildSegmentText(segments); t != [] && t[|t| - 1] != '\n'
  {
    var lines := SegmentLines(segments);
    var last := segments[|segments| - 1];
    assert lines[|lines| - 1] == SegmentLine(last);
    LineEnd(last);
    JoinLast(lines, "\n");
  }

  /** A transcript line is never empty and never ends with a newline. */
  lemma LineEnd(seg: Segment)
    ensures var l := SegmentLine(seg); l != [] && l[|l| - 1] != '\n'
  {
    StripEnds(seg.text);
    LastOfLine(FormatTime(seg.start), Strip(seg.text));
  }

  lemma LastOfLine(time: string, text: string)
    ensures var l := time + " - " + text;
            l[|l| - 1] == if text == [] then ' ' else text[|text| - 1]
  {
  }

  // ---------------------------------------------------------------------
  // create_messages

  const SCREENSHOT := "\n8. **Screenshot placeholders**: If a section involves **visual demonstrations, code walkthroughs, UI interactions**, or any content where visuals aid understanding, insert a screenshot cue at the end of that section:\n   - Format: `*Screenshot-[mm:ss]`\n   - Only use it when truly helpful.\n"
  const LINK := "\n9. **Add time markers**: THIS IS IMPORTANT For every main heading (`##`), append the starting time of that segment using the format ,start with *Content ,eg: `*Content-[mm:ss]`.\n\n\n"
  const AI_SUM := "\n\n🧠 Final Touch:\nAt the end of the notes, add a professional **AI Summary** in Chinese – a brief conclusion summarizing the whole video.\n\n\n\n"
  const TRANSCRIPT_HEADER := "🎬 Transcript Segments (Format: Start Time - Text):\n\n---\n"
  const TRANSCRIPT_FOOTER := "\n---\n\n"

  datatype Message = Message(role: string, content: string)

  /** The system prompt: the formatted base prompt, then the screenshot rules
      if asked for, then the link rules if asked for, each after a blank line. */
  function SystemContent(base: string, screenshot: bool, link: bool): (r: string)
    ensures |r| == |base| + (if screenshot then 2 + |SCREENSHOT| else 0) + (if link then 2 + |LINK| else 0)
    ensures r[..|base|] == base
    ensures screenshot ==> r[|base|..|base| + 2 + |SCREENSHOT|] == "\n\n" + SCREENSHOT
    ensures link ==> r[|r| - 2 - |LINK|..] == "\n\n" + LINK
  {
    var shots := if screenshot then "\n\n" + SCREENSHOT else "";
    var links := if link then "\n\n" + LINK else "";
    assert (base + shots + links)[..|base|] == base;
    assert screenshot ==> (base + shots + links)[|base|..|base| + |shots|] == shots;
    assert (base + shots + links)[|base| + |shots|..] == links;
    base + shots + links
  }

  /** The user message: the transcript between its header and footer, then the
      closing instructions. */
  function UserContent(segments: seq<Segment>): string {
    TRANSCRIPT_HEADER + BuildSegmentText(segments) + TRANSCRIPT_FOOTER + AI_SUM
  }

  /** `create_messages`, with `base` standing for the formatted and stripped
      BASE_PROMPT: a system message followed by a user message. */
  function CreateMessages(segments: seq<Segment>, base: string, screenshot: bool, link: bool): (msgs: seq<Message>)
    ensures |msgs| == 2 && msgs[0].role == "system" && msgs[1].role == "user"
    ensures msgs[0].content == SystemContent(base, screenshot, link)
    ensures msgs[1].content == UserContent(segments)
  {
    [Message("system", SystemContent(base, screenshot, link)), Message("user", UserContent(segments))]
  }

  /** The two flags can be read back from the system prompt: different flag
      settings never give the same messages. */
  lemma CreateMessagesFlagsDistinct(segments: seq<Segment>, base: string, s1: bool, l1: bool, s2: bool, l2: bool)
    requires CreateMessages(segments, base, s1, l1) == CreateMessages(segments, base, s2, l2)
    ensures s1 == s2 && l1 == l2
  {
    assert |SCREENSHOT| != |LINK|;
    assert |SystemContent(base, s1, l1)| == |SystemContent(base, s2, l2)|;
  }

  /** The transcript text can be cut back out of the user message. */
  lemma UserContentTranscript(segments: seq<Segment>)
    ensures var u := UserContent(segments);
            |u| >= |TRANSCRIPT_HEADER| + |TRANSCRIPT_FOOTER| + |AI_SUM| &&
            u[|TRANSCRIPT_HEADER|..|u| - |TRANSCRIPT_FOOTER| - |AI_SUM|] == BuildSegmentText(segments)
  {
    var t := BuildSegmentText(segments);
    var tail := TRANSCRIPT_FOOTER + AI_SUM;
    assert UserContent(segments) == TRANSCRIPT_HEADER + t + tail;
    MiddleOf(TRANSCRIPT_HEADER, t, tail);
  }

  lemma MiddleOf(a: string, m: string, b: string)
    ensures (a + m + b)[|a|..|a + m + b| - |b|] == m
  {
  }

  // ---------------------------------------------------------------------
  // parse_cookie_string

  /** `item.strip().split("=", 1)`: the text before the first "=" and all of
      the text after it. */
  function CookiePair(item: string): (kv: (string, string))
    requires '=' in item
    ensures '=' !in kv.0 && Strip(item) == kv.0 + "=" + kv.1
  {
    StripKeeps(item, '=');
    SplitOnce(Strip(item), '=')
  }

  /** The item sets the given cookie name. */
  predicate Sets(item: string, name: string) {
    '=' in item && CookiePair(item).0 == name
  }

  /** The dict the loop has built after the given items. */
  function CookieJar(items: seq<string>): map<string, string>
    decreases |items|
  {
    if items == [] then map[]
    else
      Put(CookieJar(items[..|items| - 1]), items[|items| - 1])
  }

  /** One pass of the loop: `cookies[k] = v` for an item with "=". */
  function Put(jar: map<string, string>, item: string): map<string, string> {
    if '=' in item then jar[CookiePair(item).0 := CookiePair(item).1] else jar
  }

  lemma PutEffect(jar: map<string, string>, item: string, name: string)
    ensures name in Put(jar, item) <==> name in jar || Sets(item, name)
    ensures Sets(item, name) ==> Put(jar, item)[name] == CookiePair(item).1
    ensures !Sets(item, name) && name in jar ==> Put(jar, item)[name] == jar[name]
  {
  }

  /** `parse_cookie_string`. */
  method ParseCookieString(cookie: string) returns (cookies: map<string, string>)
    ensures cookies == CookieJar(Split(cookie, ';'))
  {
    var items := Split(cookie, ';');
    cookies := map[];
    var i := 0;
    while i < |items|
      invariant 0 <= i <= |items|
      invariant cookies == CookieJar(items[..i])
    {
      var item := items[i];
      CookieJarStep(items, i);
      if '=' in item {
        var kv := CookiePair(item);
        cookies := cookies[kv.0 := kv.1];
      }
      i := i + 1;
    }
    assert items[..|items|] == items;
  }

  lemma CookieJarStep(items: seq<string>, i: nat)
    requires i < |items|
    ensures CookieJar(items[..i + 1]) ==
              if '=' in items[i] then CookieJar(items[..i])[CookiePair(items[i]).0 := CookiePair(items[i]).1]
              else CookieJar(items[..i])
  {
    assert items[..i + 1][..i] == items[..i];
  }

  /** The empty header yields an empty dict. */
  lemma EmptyCookieString()
    ensures CookieJar(Split("", ';')) == map[]
  {
    assert ';' !in "";
    assert Split("", ';') == [""];
    assert [""][..0] == [];
    assert CookieJar([""]) == Put(map[], "");
  }

  /** A name is in the dict exactly when some item sets it. */
  lemma CookieJarNames(items: seq<string>, name: string)
    ensures name in CookieJar(items) <==> exists i :: 0 <= i < |items| && Sets(items[i], name)
  {
    if name in CookieJar(items) {
      var i := CookieJarSetter(items, name);
    }
    forall i | 0 <= i < |items| && Sets(items[i], name) ensures name in CookieJar(items) {
      SetterInJar(items, i, name);
    }
  }

  /** Every name in the dict comes from an item that sets it. */
  lemma {:induction false} CookieJarSetter(items: seq<string>, name: string) returns (i: nat)
    requires name in CookieJar(items)
    ensures i < |items| && Sets(items[i], name)
    decreases |items|
  {
    var init := items[..|items| - 1];
    var last := items[|items| - 1];
    PutEffect(CookieJar(init), last, name);
    if Sets(last, name) {
      i := |items| - 1;
    } else {
      i := CookieJarSetter(init, name);
      assert items[i] == init[i];
    }
  }

  /** Every item that sets a name puts that name in the dict. */
  lemma {:induction false} SetterInJar(items: seq<string>, i: nat, name: string)
    requires i < |items| && Sets(items[i], name)
    ensures name in CookieJar(items)
    decreases |items|
  {
    var init := items[..|items| - 1];
    var last := items[|items| - 1];
    PutEffect(CookieJar(init), last, name);
    if i < |items| - 1 {
      assert init[i] == items[i];
      SetterInJar(init, i, name);
    }
  }

  /** The last item that sets a name decides its value. */
  lemma {:induction false} CookieJarLastWins(items: seq<string>, i: nat)
    requires i < |items| && '=' in items[i]
    requires forall j :: i < j < |items| ==> !Sets(items[j], CookiePair(items[i]).0)
    ensures CookiePair(items[i]).0 in CookieJar(items)
    ensures CookieJar(items)[CookiePair(items[i]).0] == CookiePair(items[i]).1
    decreases |items|
  {
    var init := items[..|items| - 1];
    var last := items[|items| - 1];
    var name := CookiePair(items[i]).0;
    assert CookieJar(items) == Put(CookieJar(init), last);
    if i < |items| - 1 {
      assert init[i] == items[i];
      forall j | i < j < |init| ensures !Sets(init[j], name) {
        assert init[j] == items[j];
      }
      CookieJarLastWins(init, i);
      assert !Sets(last, name);
    } else {
      assert Sets(last, name);
    }
    PutEffect(CookieJar(init), last, name);
  }

  // ---------------------------------------------------------------------
  // The stream loop of summarize

  newtype Byte = x: int | 0 <= x < 256

  const DATA_PREFIX := "data: "
  const DONE := "[DONE]"

  /** The parts of a decoded JSON chunk the loop looks at. `JsonOther` is a
      JSON value that is not an object, on which `parsed.get` raises. */
  datatype Delta = Delta(content: Option<string>)
  datatype Choice = Choice(delta: Option<Delta>)
  datatype Payload = JsonObject(choices: Option<seq<Choice>>) | JsonOther

  /** What one line does to the loop. */
  datatype Step = Skip | Stop | Append(text: string) | Crash

  /** `choices[0].delta.content` when every link of that chain is truthy. */
  function DeltaContent(choices: Option<seq<Choice>>): (c: Option<string>)
    ensures c.Some? <==> choices.Some? && choices.value != [] && choices.value[0].delta.Some? &&
                         choices.value[0].delta.value.content.Some? && choices.value[0].delta.value.content.value != ""
    ensures c.Some? ==> c == choices.value[0].delta.value.content && c.value != ""
  {
    if choices.Some? && choices.value != [] && choices.value[0].delta.Some?
       && choices.value[0].delta.value.content.Some? && choices.value[0].delta.value.content.value != ""
    then choices.value[0].delta.value.content
    else None
  }

  /** One pass of the loop body. `decode` is UTF-8 decoding, `parse` is
      `json.loads`; each yields None where the source catches an error. */
  function Classify(line: seq<Byte>, decode: seq<Byte> -> Option<string>, parse: string -> Option<Payload>): Step {
    if line == [] then Skip
    else match decode(line)
      case None => Skip
      case Some(text) =>
        if !StartsWith(text, DATA_PREFIX) then Skip
        else
          var data := Strip(text[|DATA_PREFIX|..]);
          if data == DONE then Stop
          else match parse(data)
            case None => Skip
            case Some(JsonOther) => Crash
            case Some(JsonObject(choices)) =>
              match DeltaContent(choices)
              case Some(c) => Append(c)
              case None => Skip
  }

  function StepsOf(lines: seq<seq<Byte>>, decode: seq<Byte> -> Option<string>, parse: string -> Option<Payload>): (steps: seq<Step>)
    ensures |steps| == |lines|
    ensures forall i :: 0 <= i < |lines| ==> steps[i] == Classify(lines[i], decode, parse)
  {
    seq(|lines|, i requires 0 <= i < |lines| => Classify(lines[i], decode, parse))
  }

  /** The text gathered from the steps, before the final strip; None when a
      step raises. */
  function Collected(steps: seq<Step>): Option<string>
    decreases |steps|
  {
    if steps == [] then Some("")
    else match steps[0]
      case Skip => Collected(steps[1..])
      case Stop => Some("")
      case Crash => None
      case Append(t) =>
        match Collected(steps[1..])
        case Some(rest) => Some(t + rest)
        case None => None
  }

  function Prefixed(prefix: string, o: Option<string>): Option<string> {
    match o
    case Some(t) => Some(prefix + t)
    case None => None
  }

  /** The loop of `summarize` from `full_text = ""` to `return full_text.strip()`;
      None is the AttributeError a non-object chunk raises. */
  method ReadStream(lines: seq<seq<Byte>>, decode: seq<Byte> -> Option<string>, parse: string -> Option<Payload>)
    returns (result: Option<string>)
    ensures result == match Collected(StepsOf(lines, decode, parse))
                      case Some(t) => Some(Strip(t))
                      case None => None
  {
    ghost var steps := StepsOf(lines, decode, parse);
    ghost var total := Collected(steps);
    var fullText := "";
    var i := 0;
    assert steps[i..] == steps;
    PrefixedEmpty(total);
    while i < |lines|
      invariant 0 <= i <= |lines|
      invariant total == Prefixed(fullText, Collected(steps[i..]))
    {
      var line := lines[i];
      ghost var k := i;
      assert steps[k] == Classify(line, decode, parse);
      ClassifySkips(line, decode, parse);
      i := i + 1;
      if line == [] {
        SkipStep(steps, k);
        continue;
      }
      var text := decode(line);
      if text.None? {
        SkipStep(steps, k);
        continue;
      }
      if StartsWith(text.value, DATA_PREFIX) {
        var data := Strip(text.value[|DATA_PREFIX|..]);
        ClassifyData(line, decode, parse);
        if data == DONE {
          StopStep(steps, k);
          assert fullText + "" == fullText;
          break;
        }
        var parsed := parse(data);
        if parsed.None? {
          SkipStep(steps, k);
          continue;
        }
        if parsed.value.JsonOther? {
          CrashStep(steps, k);
          result := None;
          return;
        }
        var content := DeltaContent(parsed.value.choices);
        if content.Some? {
          AppendStep(steps, k);
          PrefixedTwice(fullText, content.value, Collected(steps[i..]));
          fullText := fullText + content.value;
        } else {
          SkipStep(steps, k);
        }
      } else {
        SkipStep(steps, k);
      }
    }
    if i == |lines| {
      assert steps[i..] == [];
      assert fullText + "" == fullText;
    }
    result := Some(Strip(fullText));
  }

  /** The lines `Classify` skips before looking at their data. */
  lemma ClassifySkips(line: seq<Byte>, decode: seq<Byte> -> Option<string>, parse: string -> Option<Payload>)
    ensures line == [] ==> Classify(line, decode, parse) == Skip
    ensures line != [] && decode(line).None? ==> Classify(line, decode, parse) == Skip
    ensures line != [] && decode(line).Some? && !StartsWith(decode(line).value, DATA_PREFIX) ==>
              Classify(line, decode, parse) == Skip
  {
  }

  /** `Classify` on a data line, in the terms the loop body tests. */
  lemma ClassifyData(line: seq<Byte>, decode: seq<Byte> -> Option<string>, parse: string -> Option<Payload>)
    requires line != [] && decode(line).Some? && StartsWith(decode(line).value, DATA_PREFIX)
    ensures var data := Strip(decode(line).value[|DATA_PREFIX|..]);
            Classify(line, decode, parse) ==
              if data == DONE then Stop
              else if parse(data).None? then Skip
              else if parse(data).value.JsonOther? then Crash
              else if DeltaContent(parse(data).value.choices).None? then Skip
              else Append(DeltaContent(parse(data).value.choices).value)
  {
  }

  /** How the rest of the stream's text relates to the text after one more line. */
  lemma SkipStep(steps: seq<Step>, i: nat)
    requires i < |steps| && steps[i] == Skip
    ensures Collected(steps[i..]) == Collected(steps[i + 1..])
  {
    assert steps[i..][1..] == steps[i + 1..];
  }

  lemma StopStep(steps: seq<Step>, i: nat)
    requires i < |steps| && steps[i] == Stop
    ensures Collected(steps[i..]) == Some("")
  {
  }

  lemma CrashStep(steps: seq<Step>, i: nat)
    requires i < |steps| && steps[i] == Crash
    ensures Collected(steps[i..]) == None
  {
  }

  lemma AppendStep(steps: seq<Step>, i: nat)
    requires i < |steps| && steps[i].Append?
    ensures Collected(steps[i..]) == Prefixed(steps[i].text, Collected(steps[i + 1..]))
  {
    assert steps[i..][1..] == steps[i + 1..];
  }

  lemma PrefixedEmpty(o: Option<string>)
    ensures Prefixed("", o) == o
  {
    if o.Some? {
      assert "" + o.value == o.value;
    }
  }

  lemma PrefixedTwice(a: string, b: string, o: Option<string>)
    ensures Prefixed(a, Prefixed(b, o)) == Prefixed(a + b, o)
  {
    if o.Some? {
      assert a + (b + o.value) == (a + b) + o.value;
    }
  }

  /** Lines after the first "[DONE]" are never looked at. */
  lemma {:induction false} CollectedStopsAtDone(before: seq<Step>, after: seq<Step>)
    ensures Collected(before + [Stop] + after) == Collected(before + [Stop])
    decreases |before|
  {
    if before == [] {
      assert (before + [Stop] + after)[0] == Stop;
    } else {
      assert (before + [Stop] + after)[1..] == before[1..] + [Stop] + after;
      assert (before + [Stop])[1..] == before[1..] + [Stop];
      CollectedStopsAtDone(before[1..], after);
    }
  }

  /** A skipped line changes nothing. */
  lemma {:induction false} CollectedIgnoresSkip(before: seq<Step>, after: seq<Step>)
    ensures Collected(before + [Skip] + after) == Collected(before + after)
    decreases |before|
  {
    if before == [] {
      assert (before + [Skip] + after)[1..] == after;
      assert before + after == after;
    } else {
      assert (before + [Skip] + after)[1..] == before[1..] + [Skip] + after;
      assert (before + after)[1..] == before[1..] + after;
      CollectedIgnoresSkip(before[1..], after);
    }
  }

  /** The contents of the Append steps, concatenated in order. */
  function Contents(steps: seq<Step>): string
    decreases |steps|
  {
    if steps == [] then ""
    else (if steps[0].Append? then steps[0].text else "") + Contents(steps[1..])
  }

  /** Without "[DONE]" and without a failing chunk, the result is all the
      contents in order. */
  lemma {:induction false} CollectedIsContents(steps: seq<Step>)
    requires forall i :: 0 <= i < |steps| ==> !steps[i].Stop? && !steps[i].Crash?
    ensures Collected(steps) == Some(Contents(steps))
    decreases |steps|
  {
    if steps != [] {
      CollectedIsContents(steps[1..]);
      assert "" + Contents(steps[1..]) == Contents(steps[1..]);
    }
  }

  /** A failing chunk before any "[DONE]" makes the whole call fail. */
  lemma {:induction false} CollectedCrash(before: seq<Step>, after: seq<Step>)
    requires forall i :: 0 <= i < |before| ==> !before[i].Stop?
    ensures Collected(before + [Crash] + after) == None
    decreases |before|
  {
    if before == [] {
      assert (before + [Crash] + after)[0] == Crash;
    } else {
      assert (before + [Crash] + after)[1..] == before[1..] + [Crash] + after;
      CollectedCrash(before[1..], after);
    }
  }
}
