/** The serial line reader: it cuts the byte stream of the modem into lines, hands unsolicited messages
    to the handler of the first filter that prefixes them, and returns the first other line. */
module Serials {
  import opened Common

  datatype UrcFilter = UrcFilter(urc: string, handler: nat)

  /** A handler called with a line. */
  datatype Call = Call(handler: nat, line: string)

  datatype ReadMode = Normal | Simple | Ignore

  datatype LineStatus = LineEmpty | LineData | LineComplete

  // ----- lines of a stream -----

  predicate Dropped(c: char) {
    c == '\r' || c == '\0'
  }

  /** A raw line without its carriage returns and zero bytes. */
  function Strip(raw: string): string {
    if raw == "" then ""
    else (if Dropped(raw[0]) then "" else [raw[0]]) + Strip(raw[1..])
  }

  /** The position of the first line feed, or the length of a stream without one. */
  function LineFeed(s: string): (n: nat)
    ensures n <= |s| && (n < |s| ==> s[n] == '\n')
    ensures forall i :: 0 <= i < n ==> s[i] != '\n'
  {
    if s == "" || s[0] == '\n' then 0 else 1 + LineFeed(s[1..])
  }

  /** The non-empty lines that a stream completes, given what its first line already consists of. */
  function LinesAfter(begun: string, s: string): seq<string>
    decreases |s|
  {
    var n := LineFeed(s);
    if n == |s| then []
    else
      var line := begun + Strip(s[..n]);
      (if line == "" then [] else [line]) + LinesAfter("", s[n + 1..])
  }

  function NonEmptyLines(s: string): seq<string> {
    LinesAfter("", s)
  }

  /** What follows the first line feed. */
  function NextLine(s: string): string {
    var n := LineFeed(s);
    if n == |s| then "" else s[n + 1..]
  }

  lemma {:induction false} StripAppend(raw: string, c: char)
    ensures Strip([c] + raw) == (if Dropped(c) then "" else [c]) + Strip(raw)
  {
    assert ([c] + raw)[1..] == raw;
  }

  /** Reading a stream one character at a time. */
  lemma {:induction false} LinesByCharacter(begun: string, s: string)
    requires s != ""
    ensures LinesAfter(begun, s) ==
      if s[0] == '\n' then (if begun == "" then [] else [begun]) + LinesAfter("", s[1..])
      else if Dropped(s[0]) then LinesAfter(begun, s[1..])
      else LinesAfter(begun + [s[0]], s[1..])
  {
    var n := LineFeed(s);
    if s[0] == '\n' {
      assert s[..0] == "" && begun + Strip(s[..0]) == begun;
    } else if n < |s| {
      var raw := s[1..][..n - 1];
      assert s[..n] == [s[0]] + raw;
      StripAppend(raw, s[0]);
      assert s[1..][n..] == s[n + 1..];
      if Dropped(s[0]) {
        assert "" + Strip(raw) == Strip(raw);
      } else {
        assert begun + ([s[0]] + Strip(raw)) == begun + [s[0]] + Strip(raw);
      }
    }
  }

  lemma {:induction false} NextLineByCharacter(s: string)
    requires s != ""
    ensures NextLine(s) == if s[0] == '\n' then s[1..] else NextLine(s[1..])
  {
  }

  // ----- which lines those are -----

  /** A line as it is received: not empty, and without the three characters that never belong to one. */
  predicate Clean(line: string) {
    line != "" && forall i :: 0 <= i < |line| ==> line[i] != '\r' && line[i] != '\n' && line[i] != '\0'
  }

  /** The lines as a modem sends them. */
  function Sent(lines: seq<string>): string {
    if lines == [] then "" else lines[0] + "\r\n" + Sent(lines[1..])
  }

  lemma {:induction false} StripIsPlain(raw: string)
    ensures forall i :: 0 <= i < |Strip(raw)| ==> Strip(raw)[i] != '\r' && Strip(raw)[i] != '\0' && Strip(raw)[i] in raw
  {
    if raw != "" {
      StripIsPlain(raw[1..]);
    }
  }

  /** Every line that is read is such a line. */
  lemma {:induction false} LinesAreClean(s: string)
    ensures forall i :: 0 <= i < |NonEmptyLines(s)| ==> Clean(NonEmptyLines(s)[i])
    decreases |s|
  {
    var n := LineFeed(s);
    if n < |s| {
      LinesAreClean(s[n + 1..]);
      StripIsPlain(s[..n]);
      var line := Strip(s[..n]);
      assert "" + line == line && forall i :: 0 <= i < |line| ==> line[i] in s[..n];
      assert line == "" || Clean(line);
      assert NonEmptyLines(s) == (if line == "" then [] else [line]) + NonEmptyLines(s[n + 1..]);
    }
  }

  lemma {:induction false} StripKeeps(line: string)
    requires forall i :: 0 <= i < |line| ==> line[i] != '\r' && line[i] != '\0'
    ensures Strip(line + "\r") == line
  {
    if line == "" {
      assert "\r"[1..] == "";
    } else {
      assert (line + "\r")[1..] == line[1..] + "\r";
      StripKeeps(line[1..]);
    }
  }

  lemma {:induction false} OneLineSent(line: string, rest: string)
    requires Clean(line)
    ensures NonEmptyLines(line + "\r\n" + rest) == [line] + NonEmptyLines(rest)
  {
    var s, n := line + "\r\n" + rest, LineFeed(line + "\r\n" + rest);
    assert s[|line| + 1] == '\n' && forall i :: 0 <= i < |line| ==> s[i] == line[i];
    assert n == |line| + 1;
    assert s[..n] == line + "\r" && s[n + 1..] == rest;
    StripKeeps(line);
    assert "" + line == line;
  }

  /** Lines that are sent are the lines that are read. */
  lemma {:induction false} SentIsRead(lines: seq<string>)
    requires forall i :: 0 <= i < |lines| ==> Clean(lines[i])
    ensures NonEmptyLines(Sent(lines)) == lines
  {
    if lines != [] {
      SentIsRead(lines[1..]);
      OneLineSent(lines[0], Sent(lines[1..]));
    }
  }

  /** The line that is not read from its start on is skipped. */
  lemma {:induction false} NextLineSkips(begun: string, rest: string)
    requires '\n' !in begun
    ensures NextLine(begun + "\n" + rest) == rest && NextLine(begun) == ""
  {
    var s, n := begun + "\n" + rest, LineFeed(begun + "\n" + rest);
    assert s[|begun|] == '\n' && forall i :: 0 <= i < |begun| ==> s[i] == begun[i];
    assert n == |begun| && s[n + 1..] == rest;
  }

  // ----- who receives a line -----

  /** The first filter that prefixes the line. */
  function FirstFilter(filters: seq<UrcFilter>, line: string): (r: Option<nat>)
    ensures r.Some? ==> r.value < |filters| && filters[r.value].urc <= line
    ensures r.Some? ==> forall i :: 0 <= i < r.value ==> !(filters[i].urc <= line)
    ensures r.None? ==> forall i :: 0 <= i < |filters| ==> !(filters[i].urc <= line)
    decreases |filters|
  {
    if filters == [] then None
    else if filters[0].urc <= line then Some(0)
    else match FirstFilter(filters[1..], line)
      case Some(i) => Some(i + 1)
      case None => None
  }

  /** Handler calls, then the line for the caller if there is one, then the lines still to come. */
  datatype Delivery = Delivery(calls: seq<Call>, line: Option<string>, rest: seq<string>)

  function Deliver(filters: seq<UrcFilter>, lines: seq<string>): Delivery
    decreases |lines|
  {
    if lines == [] then Delivery([], None, [])
    else match FirstFilter(filters, lines[0])
      case None => Delivery([], Some(lines[0]), lines[1..])
      case Some(i) =>
        var later := Deliver(filters, lines[1..]);
        later.(calls := [Call(filters[i].handler, lines[0])] + later.calls)
  }

  function Texts(calls: seq<Call>): seq<string> {
    if calls == [] then [] else [calls[0].line] + Texts(calls[1..])
  }

  /** The call goes to the first filter that prefixes its line. */
  predicate RightHandler(filters: seq<UrcFilter>, c: Call) {
    var f := FirstFilter(filters, c.line);
    f.Some? && c.handler == filters[f.value].handler
  }

  lemma {:induction false} CallsAreRight(filters: seq<UrcFilter>, lines: seq<string>)
    ensures forall i :: 0 <= i < |Deliver(filters, lines).calls| ==> RightHandler(filters, Deliver(filters, lines).calls[i])
    decreases |lines|
  {
    if lines != [] && FirstFilter(filters, lines[0]).Some? {
      CallsAreRight(filters, lines[1..]);
    }
  }

  lemma {:induction false} Regrouped(line: string, a: seq<string>, b: seq<string>, c: seq<string>)
    ensures [line] + (a + b + c) == ([line] + a) + b + c
  {
  }

  lemma {:induction false} CallInFront(c: Call, calls: seq<Call>)
    ensures Texts([c] + calls) == [c.line] + Texts(calls)
  {
    assert ([c] + calls)[1..] == calls;
  }

  /** Each line has exactly one receiver, in order: earlier ones go to the handler of their first filter
      (CallsAreRight), the returned one has no filter. */
  lemma {:induction false} EachLineOnce(filters: seq<UrcFilter>, lines: seq<string>)
    ensures
      var d := Deliver(filters, lines);
      && lines == Texts(d.calls) + (if d.line.Some? then [d.line.value] else []) + d.rest
      && (d.line == None ==> d.rest == [])
      && (d.line.Some? ==> FirstFilter(filters, d.line.value) == None)
    decreases |lines|
  {
    if lines != [] {
      var line, rest := lines[0], lines[1..];
      assert lines == [line] + rest;
      match FirstFilter(filters, line)
      case Some(i) =>
        EachLineOnce(filters, rest);
        var d := Deliver(filters, rest);
        CallInFront(Call(filters[i].handler, line), d.calls);
        Regrouped(line, Texts(d.calls), if d.line.Some? then [d.line.value] else [], d.rest);
      case None => assert [] + [line] + rest == lines;
    }
  }

  function Prepend(calls: seq<Call>, d: Delivery): Delivery {
    d.(calls := calls + d.calls)
  }

  lemma {:induction false} PrependOne(filters: seq<UrcFilter>, calls: seq<Call>, line: string, lines: seq<string>)
    ensures Prepend(calls, Deliver(filters, [line] + lines)) ==
      match FirstFilter(filters, line)
        case Some(i) => Prepend(calls + [Call(filters[i].handler, line)], Deliver(filters, lines))
        case None => Delivery(calls, Some(line), lines)
  {
    assert ([line] + lines)[1..] == lines;
    match FirstFilter(filters, line)
    case Some(i) =>
      var c := Call(filters[i].handler, line);
      assert calls + ([c] + Deliver(filters, lines).calls) == (calls + [c]) + Deliver(filters, lines).calls;
    case None =>
      assert calls + [] == calls;
  }

  /** What becomes of a stream, given the calls made so far and the line begun. */
  function Outlook(filters: seq<UrcFilter>, calls: seq<Call>, begun: string, s: string): Delivery {
    Prepend(calls, Deliver(filters, LinesAfter(begun, s)))
  }

  lemma {:induction false} OutlookByCharacter(filters: seq<UrcFilter>, calls: seq<Call>, begun: string, s: string,
                                              later: string)
    requires s != "" && later == s[1..]
    ensures Outlook(filters, calls, begun, s) ==
      if s[0] == '\n' then
        if begun == "" then Outlook(filters, calls, "", later)
        else match FirstFilter(filters, begun)
          case Some(i) => Outlook(filters, calls + [Call(filters[i].handler, begun)], "", later)
          case None => Delivery(calls, Some(begun), NonEmptyLines(later))
      else if Dropped(s[0]) then Outlook(filters, calls, begun, later)
      else Outlook(filters, calls, begun + [s[0]], later)
  {
    LinesByCharacter(begun, s);
    if s[0] == '\n' && begun == "" {
      assert [] + LinesAfter("", later) == LinesAfter("", later);
    } else if s[0] == '\n' {
      PrependOne(filters, calls, begun, NonEmptyLines(later));
    }
  }

  /** What a read that began with `goal` ahead of it has still ahead: the rest of the stream with the line begun, or
      while the first line is skipped, what follows that. */
  predicate Ahead(filters: seq<UrcFilter>, calls: seq<Call>, line: string, rest: string, skipping: bool, goal: Delivery) {
    if skipping then line == "" && goal == Outlook(filters, calls, "", NextLine(rest))
    else goal == Outlook(filters, calls, line, rest)
  }

  lemma {:induction false} CharacterIgnored(filters: seq<UrcFilter>, calls: seq<Call>, line: string, rest: string,
                                            later: string, skipping: bool, goal: Delivery)
    requires Ahead(filters, calls, line, rest, skipping, goal) && rest != "" && later == rest[1..]
    requires Dropped(rest[0]) || (skipping && rest[0] != '\n')
    ensures Ahead(filters, calls, line, later, skipping, goal)
  {
    if skipping {
      NextLineByCharacter(rest);
    } else {
      OutlookByCharacter(filters, calls, line, rest, later);
    }
  }

  lemma {:induction false} CharacterKept(filters: seq<UrcFilter>, calls: seq<Call>, line: string, rest: string,
                                         later: string, goal: Delivery)
    requires Ahead(filters, calls, line, rest, false, goal) && rest != "" && later == rest[1..]
    requires rest[0] != '\n' && !Dropped(rest[0])
    ensures Ahead(filters, calls, line + [rest[0]], later, false, goal)
  {
    OutlookByCharacter(filters, calls, line, rest, later);
  }

  lemma {:induction false} LineBegins(filters: seq<UrcFilter>, calls: seq<Call>, rest: string, later: string,
                                      skipping: bool, goal: Delivery)
    requires Ahead(filters, calls, "", rest, skipping, goal) && rest != "" && later == rest[1..] && rest[0] == '\n'
    ensures Ahead(filters, calls, "", later, false, goal)
  {
    if skipping {
      NextLineByCharacter(rest);
    } else {
      OutlookByCharacter(filters, calls, "", rest, later);
    }
  }

  lemma {:induction false} NothingAhead(filters: seq<UrcFilter>, calls: seq<Call>, line: string, skipping: bool,
                                        goal: Delivery)
    requires Ahead(filters, calls, line, "", skipping, goal)
    ensures goal == Delivery(calls, None, [])
  {
    assert calls + [] == calls;
  }

  // ----- repeated reads -----

  /** The lines without a filter, in order: those that reads return. */
  function Unfiltered(filters: seq<UrcFilter>, lines: seq<string>): seq<string>
    decreases |lines|
  {
    if lines == [] then []
    else (if FirstFilter(filters, lines[0]).None? then [lines[0]] else []) + Unfiltered(filters, lines[1..])
  }

  /** The calls for the others, in order. */
  function CallsFor(filters: seq<UrcFilter>, lines: seq<string>): seq<Call>
    decreases |lines|
  {
    if lines == [] then []
    else match FirstFilter(filters, lines[0])
      case Some(i) => [Call(filters[i].handler, lines[0])] + CallsFor(filters, lines[1..])
      case None => CallsFor(filters, lines[1..])
  }

  lemma {:induction false} InFront(line: string, rest: seq<string>, lines: seq<string>)
    requires lines == [line] + rest
    ensures multiset(lines) == multiset{line} + multiset(rest)
  {
  }

  /** Every line has exactly one receiver: a call or a reader. */
  lemma {:induction false} OneReceiver(filters: seq<UrcFilter>, lines: seq<string>)
    ensures multiset(lines) == multiset(Texts(CallsFor(filters, lines))) + multiset(Unfiltered(filters, lines))
    decreases |lines|
  {
    if lines != [] {
      var line, rest := lines[0], lines[1..];
      OneReceiver(filters, rest);
      InFront(line, rest, lines);
      match FirstFilter(filters, line)
      case Some(i) =>
        CallInFront(Call(filters[i].handler, line), CallsFor(filters, rest));
        InFront(line, Texts(CallsFor(filters, rest)), Texts(CallsFor(filters, lines)));
      case None => InFront(line, Unfiltered(filters, rest), Unfiltered(filters, lines));
    }
  }

  /** One delivery, and those after it. */
  lemma {:induction false} DeliverThenRest(filters: seq<UrcFilter>, lines: seq<string>)
    ensures
      var d := Deliver(filters, lines);
      && CallsFor(filters, lines) == d.calls + CallsFor(filters, d.rest)
      && Unfiltered(filters, lines) == (if d.line.Some? then [d.line.value] else []) + Unfiltered(filters, d.rest)
      && (d.line.None? ==> d.rest == [])
    decreases |lines|
  {
    if lines != [] {
      match FirstFilter(filters, lines[0])
      case None => assert FirstFilter(filters, lines[0]).None?;
      case Some(i) =>
        DeliverThenRest(filters, lines[1..]);
        var d := Deliver(filters, lines[1..]);
        var c := Call(filters[i].handler, lines[0]);
        assert [c] + (d.calls + CallsFor(filters, d.rest)) == ([c] + d.calls) + CallsFor(filters, d.rest);
    }
  }

  /** What has been returned and called, and what is still ahead, make up the whole. */
  predicate ReadSoFar(filters: seq<UrcFilter>, all: seq<string>, ahead: seq<string>, lines: seq<string>,
                      before: seq<Call>, calls: seq<Call>)
  {
    && lines + Unfiltered(filters, ahead) == Unfiltered(filters, all)
    && calls + CallsFor(filters, ahead) == before + CallsFor(filters, all)
  }

  lemma {:induction false} OneMoreRead(filters: seq<UrcFilter>, all: seq<string>, ahead: seq<string>,
                                       lines: seq<string>, before: seq<Call>, calls: seq<Call>)
    requires ReadSoFar(filters, all, ahead, lines, before, calls)
    ensures
      var d := Deliver(filters, ahead);
      && ReadSoFar(filters, all, d.rest, lines + (if d.line.Some? then [d.line.value] else []), before, calls + d.calls)
      && (d.line.None? ==> d.rest == [])
  {
    DeliverThenRest(filters, ahead);
    var d := Deliver(filters, ahead);
    var line := if d.line.Some? then [d.line.value] else [];
    assert lines + (line + Unfiltered(filters, d.rest)) == lines + line + Unfiltered(filters, d.rest);
    assert calls + (d.calls + CallsFor(filters, d.rest)) == calls + d.calls + CallsFor(filters, d.rest);
  }

  class Serial {
    var filters: seq<UrcFilter>
    var calls: seq<Call>  // the handler calls so far

    constructor (filters: seq<UrcFilter>)
      ensures this.filters == filters && calls == []
    {
      this.filters, calls := filters, [];
    }

    method IndexOf(line: string) returns (index: int)
      ensures index == match FirstFilter(filters, line) case Some(i) => i case None => -1
    {
      index := -1;
      var n := 0;
      while n < |filters|
        invariant 0 <= n <= |filters| && index == -1
        invariant forall i :: 0 <= i < n ==> !(filters[i].urc <= line)
      {
        if filters[n].urc <= line {
          index := n;
          break;
        }
        n := n + 1;
      }
    }

    /** A complete line: its filter's handler takes it, or nobody does. */
    method Filter(line: string) returns (taken: bool)
      modifies this`calls
      ensures taken == FirstFilter(filters, line).Some?
      ensures calls == if taken
        then old(calls) + [Call(filters[FirstFilter(filters, line).value].handler, line)]
        else old(calls)
    {
      taken := false;
      if |filters| > 0 {
        var filterIndex := IndexOf(line);
        if 0 <= filterIndex {
          calls := calls + [Call(filters[filterIndex].handler, line)];
          taken := true;
        }
      }
    }

    method CompleteLine(line: string, ghost rest: string, ghost later: string, ghost goal: Delivery) returns (taken: bool)
      requires Ahead(filters, calls, line, rest, false, goal)
      requires rest != "" && later == rest[1..] && rest[0] == '\n' && line != ""
      modifies this`calls
      ensures taken ==> Ahead(filters, calls, "", later, false, goal)
      ensures !taken ==> goal == Delivery(calls, Some(line), NonEmptyLines(later))
    {
      OutlookByCharacter(filters, calls, line, rest, later);
      taken := Filter(line);
    }

    /** Reads from the bytes that arrive before the time is over; `used` of them are consumed, and unless `found` the
        read ends with a timeout error. `text` is
        the line found (or begun), which mode Ignore does not return. */
    method ReadLine(arrived: string, mode: ReadMode)
      returns (line: string, index: nat, used: nat, found: bool, ghost text: string)
      modifies this`calls
      ensures used <= |arrived| && index == |text| && line == if mode == Ignore then "" else text
      ensures !found ==> used == |arrived|
      ensures found ==> text != "" && used > 0 && arrived[used - 1] == '\n'
      ensures
        var lines := NonEmptyLines(if mode == Simple then arrived else NextLine(arrived));
        Delivery(calls, if found then Some(text) else None, NonEmptyLines(arrived[used..]))
          == Prepend(old(calls), Deliver(filters, lines))
    {
      ghost var stream := if mode == Simple then arrived else NextLine(arrived);
      ghost var goal := Outlook(filters, calls, "", stream);
      line, index, used, found := "", 0, 0, false;
      var lineStatus := if mode == Simple then LineData else LineEmpty;
      assert arrived[0..] == arrived;
      while used < |arrived|
        invariant 0 <= used <= |arrived| && index == |line| && !found && lineStatus != LineComplete
        invariant Ahead(filters, calls, line, arrived[used..], lineStatus == LineEmpty, goal)
      {
        ghost var skipping, rest := lineStatus == LineEmpty, arrived[used..];
        ghost var later := rest[1..];
        var uartInChar := arrived[used];
        used := used + 1;
        assert arrived[used..] == later;
        if uartInChar == '\0' || uartInChar == '\r' {
          CharacterIgnored(filters, calls, line, rest, later, skipping, goal);
        } else if uartInChar == '\n' && lineStatus == LineEmpty {
          LineBegins(filters, calls, rest, later, skipping, goal);
          lineStatus := LineData;
        } else if uartInChar == '\n' && lineStatus == LineData {
          if 0 < index {
            lineStatus := LineComplete;
            var taken := CompleteLine(line, rest, later, goal);
            if !taken {
              found := true;
              break;
            }
            line := "";
            index := 0;
            lineStatus := LineData;
          } else {
            LineBegins(filters, calls, rest, later, skipping, goal);
          }
        } else if lineStatus == LineData {
          CharacterKept(filters, calls, line, rest, later, goal);
          line := line + [uartInChar];
          index := index + 1;
        } else {
          CharacterIgnored(filters, calls, line, rest, later, skipping, goal);
        }
      }
      if !found {
        NothingAhead(filters, calls, line, lineStatus == LineEmpty, goal);
      }
      text := line;
      if mode == Ignore {
        line := "";
      }
    }

    /** One read out of the middle of a stream. */
    method ReadNext(stream: string, at: nat) returns (line: string, next: nat, found: bool)
      requires at <= |stream|
      modifies this`calls
      ensures at <= next <= |stream| && (found ==> at < next)
      ensures
        var d := Deliver(filters, NonEmptyLines(stream[at..]));
        && calls == old(calls) + d.calls && d.line == (if found then Some(line) else None)
        && NonEmptyLines(stream[next..]) == d.rest
    {
      var index, used;
      ghost var text;
      line, index, used, found, text := ReadLine(stream[at..], Simple);
      next := at + used;
      assert stream[at..][used..] == stream[next..];
    }

    /** Reads one line after the other in Simple mode, until the stream has no more of them. The lines that are
        returned and the calls that are made are, each in stream order, those without and those with a filter. */
    method ReadLines(stream: string) returns (lines: seq<string>)
      modifies this`calls
      ensures lines == Unfiltered(filters, NonEmptyLines(stream))
      ensures calls == old(calls) + CallsFor(filters, NonEmptyLines(stream))
    {
      lines := [];
      var at, more := 0, true;
      ghost var all := NonEmptyLines(stream);
      assert stream[0..] == stream;
      while more
        invariant 0 <= at <= |stream|
        invariant ReadSoFar(filters, all, if more then NonEmptyLines(stream[at..]) else [], lines, old(calls), calls)
        decreases |stream| - at, more
      {
        ghost var ahead, before := NonEmptyLines(stream[at..]), calls;
        var line;
        line, at, more := ReadNext(stream, at);
        OneMoreRead(filters, all, ahead, lines, old(calls), before);
        if more {
          lines := lines + [line];
        }
      }
    }
  }
}
