/** FullText - one line with a timecode per segment - and the plain text, built from the segments of a transcript. */
module Formats {
  import opened Prelude
  import opened Text
  import opened Normalize
  import Matching

  datatype Segment = Segment(start: real, text: string)

  /** `int(x)`: truncation toward zero. */
  function Truncate(x: real): int {
    if x >= 0.0 then x.Floor else -((-x).Floor)
  }

  /** Towards zero: the whole part, with the sign. */
  lemma TruncateDropsTheFraction(x: real)
    ensures x >= 0.0 ==> Truncate(x) as real <= x < Truncate(x) as real + 1.0
    ensures x < 0.0 ==> Truncate(x) as real - 1.0 < x <= Truncate(x) as real
  {
  }

  /** The format `02d`. */
  function TwoDigits(n: int): string {
    if n < 0 then "-" + Decimal(-n) else if n < 10 then "0" + Decimal(n) else Decimal(n)
  }

  /** `hh:mm:ss`; `divmod` floors, and so do `/` and `%` for a positive divisor. */
  function Clock(total: int): string {
    var hours, rest := total / 3600, total % 3600;
    TwoDigits(hours) + ":" + TwoDigits(rest / 60) + ":" + TwoDigits(rest % 60)
  }

  function FormatTimecode(seconds: real): string {
    "[" + Clock(Truncate(seconds)) + "]"
  }

  /** The segments whose text is not blank. */
  function Spoken(u: Alphabet, segments: seq<Segment>): (kept: seq<Segment>)
    ensures forall s :: s in kept <==> s in segments && Strip(u, s.text) != ""
  {
    if segments == [] then []
    else (if Strip(u, segments[0].text) != "" then [segments[0]] else []) + Spoken(u, segments[1..])
  }

  /** The segments stay in their order. */
  lemma {:induction false} SpokenInOrder(u: Alphabet, a: seq<Segment>, b: seq<Segment>)
    ensures Spoken(u, a + b) == Spoken(u, a) + Spoken(u, b)
  {
    if a == [] {
      assert a + b == b;
    } else {
      assert (a + b)[1..] == a[1..] + b;
      SpokenInOrder(u, a[1..], b);
      Associative(if Strip(u, a[0].text) != "" then [a[0]] else [], Spoken(u, a[1..]), Spoken(u, b));
    }
  }

  /** Those that say nothing are left out. */
  lemma SilentIsLeftOut(u: Alphabet, s: Segment)
    ensures Spoken(u, [s]) == if Strip(u, s.text) == "" then [] else [s]
  {
    assert [s][1..] == [];
  }

  function Line(u: Alphabet, s: Segment): string {
    FormatTimecode(s.start) + " " + Strip(u, s.text)
  }

  function Lines(u: Alphabet, segments: seq<Segment>): seq<string> {
    seq(|segments|, i requires 0 <= i < |segments| => Line(u, segments[i]))
  }

  function Texts(u: Alphabet, segments: seq<Segment>): seq<string> {
    seq(|segments|, i requires 0 <= i < |segments| => Strip(u, segments[i].text))
  }

  /** `to_full_text`. */
  function FullText(u: Alphabet, segments: seq<Segment>): string {
    Join(Lines(u, Spoken(u, segments)), '\n')
  }

  /** `to_plain_text`. */
  function PlainText(u: Alphabet, segments: seq<Segment>): string {
    Join(Texts(u, Spoken(u, segments)), ' ')
  }

  // ---- reading it back ----

  predicate Digits(s: string) {
    forall i :: 0 <= i < |s| ==> '0' <= s[i] <= '9'
  }

  function Value(s: string): nat
    requires Digits(s)
  {
    if s == "" then 0 else 10 * Value(s[..|s| - 1]) + (s[|s| - 1] as int - '0' as int)
  }

  /** What a timecode line says: the second it starts at, and the text. */
  datatype Spoke = Spoke(second: nat, text: string)

  /** `hh:mm:ss` with at least two digits for the hours, two each and less than sixty for the others. */
  function ReadClock(s: string): Option<nat> {
    ReadParts(Split(s, ':'))
  }

  function ReadParts(parts: seq<string>): Option<nat> {
    if |parts| == 3 && Digits(parts[0]) && Digits(parts[1]) && Digits(parts[2])
       && |parts[0]| >= 2 && |parts[1]| == 2 && |parts[2]| == 2 && Value(parts[1]) < 60 && Value(parts[2]) < 60
    then Some(3600 * Value(parts[0]) + 60 * Value(parts[1]) + Value(parts[2]))
    else None
  }

  /** Up to the first closing bracket. */
  function ClockLength(s: string): (n: nat)
    ensures n <= |s| && ']' !in s[..n] && (n < |s| ==> s[n] == ']')
  {
    if s == [] || s[0] == ']' then 0 else 1 + ClockLength(s[1..])
  }

  function ReadLine(line: string): Option<Spoke> {
    if line == "" || line[0] != '[' then None
    else
      var n := ClockLength(line[1..]);
      var clock, after := line[1..n + 1], line[n + 1..];
      if !StartsWith(after, "] ") || ReadClock(clock).None? then None
      else Some(Spoke(ReadClock(clock).value, after[2..]))
  }

  function ReadLines(lines: seq<string>): Option<seq<Spoke>> {
    if lines == [] then Some([])
    else
      var first, rest := ReadLine(lines[0]), ReadLines(lines[1..]);
      if first.None? || rest.None? then None else Some([first.value] + rest.value)
  }

  function ReadFullText(text: string): Option<seq<Spoke>> {
    if text == "" then Some([]) else ReadLines(Split(text, '\n'))
  }

  /** No segment starts a second or more before zero. */
  ghost predicate Timed(segments: seq<Segment>) {
    forall s :: s in segments ==> Truncate(s.start) >= 0
  }

  /** What the segments say, in whole seconds. */
  ghost function SpokenAt(u: Alphabet, segments: seq<Segment>): seq<Spoke>
    requires Timed(segments)
  {
    seq(|segments|, i requires 0 <= i < |segments| => Spoke(Truncate(segments[i].start), Strip(u, segments[i].text)))
  }

  // ---- numbers ----

  lemma {:induction false} ValueOfDecimal(n: nat)
    ensures Digits(Decimal(n)) && Value(Decimal(n)) == n
  {
    if n < 10 {
      assert Decimal(n)[..0] == "";
    } else {
      ValueOfDecimal(n / 10);
      var s := Decimal(n);
      assert s[..|s| - 1] == Decimal(n / 10);
    }
  }

  lemma {:induction false} LeadingZero(s: string)
    requires Digits(s)
    ensures Digits("0" + s) && Value("0" + s) == Value(s)
  {
    var zero := "0";
    if s == "" {
      assert zero + s == zero && zero[..0] == "";
    } else {
      var init := s[..|s| - 1];
      LeadingZero(init);
      assert (zero + s)[..|zero + s| - 1] == zero + init;
    }
  }

  lemma DecimalLength(n: nat)
    requires n < 100
    ensures |Decimal(n)| == if n < 10 then 1 else 2
  {
  }

  lemma LongDecimal(n: nat)
    requires n >= 10
    ensures |Decimal(n)| >= 2
  {
    assert |Decimal(n / 10)| >= 1;
  }

  lemma TwoDigitsRead(n: nat)
    ensures Digits(TwoDigits(n)) && Value(TwoDigits(n)) == n && |TwoDigits(n)| >= 2
    ensures n < 100 ==> |TwoDigits(n)| == 2
  {
    ValueOfDecimal(n);
    if n < 10 {
      LeadingZero(Decimal(n));
      DecimalLength(n);
    } else {
      LongDecimal(n);
      if n < 100 { DecimalLength(n); }
    }
  }

  // ---- one line ----

  lemma SplitClock(a: string, b: string, c: string)
    requires ':' !in a && ':' !in b && ':' !in c
    ensures Split(a + ":" + b + ":" + c, ':') == [a, b, c]
  {
    SplitAt(a, ':', b + ":" + c);
    SplitAt(b, ':', c);
    SplitPlain(c, ':');
    assert a + ":" + b + ":" + c == a + [':'] + (b + ":" + c);
    assert b + ":" + c == b + [':'] + c;
  }

  lemma ClockSum(total: int)
    ensures 3600 * (total / 3600) + 60 * (total % 3600 / 60) + total % 3600 % 60 == total
    ensures 0 <= total % 3600 / 60 < 60
  {
    var rest := total % 3600;
    assert rest == 60 * (rest / 60) + rest % 60;
  }

  lemma PartsRead(a: string, b: string, c: string)
    requires Digits(a) && Digits(b) && Digits(c) && |a| >= 2 && |b| == 2 && |c| == 2
    requires Value(b) < 60 && Value(c) < 60
    ensures ReadParts([a, b, c]) == Some(3600 * Value(a) + 60 * Value(b) + Value(c))
  {
  }

  lemma NoBracket(a: string, b: string, c: string)
    requires ']' !in a && ']' !in b && ']' !in c
    ensures ']' !in a + ":" + b + ":" + c
  {
  }

  lemma ClockParts(h: nat, m: nat, s: nat)
    requires m < 60 && s < 60
    ensures var clock := TwoDigits(h) + ":" + TwoDigits(m) + ":" + TwoDigits(s);
            ReadClock(clock) == Some(3600 * h + 60 * m + s) && ']' !in clock
  {
    var a, b, c := TwoDigits(h), TwoDigits(m), TwoDigits(s);
    TwoDigitsRead(h);
    TwoDigitsRead(m);
    TwoDigitsRead(s);
    NoMarks(a);
    NoMarks(b);
    NoMarks(c);
    SplitClock(a, b, c);
    PartsRead(a, b, c);
    NoBracket(a, b, c);
  }

  lemma ClockRead(total: nat)
    ensures ReadClock(Clock(total)) == Some(total) && ']' !in Clock(total)
  {
    ClockSum(total);
    ClockParts(total / 3600, total % 3600 / 60, total % 3600 % 60);
  }

  lemma NoMarks(s: string)
    requires Digits(s)
    ensures ':' !in s && ']' !in s
  {
  }

  lemma {:induction false} ClockLengthIs(clock: string, rest: string)
    requires ']' !in clock && rest != "" && rest[0] == ']'
    ensures ClockLength(clock + rest) == |clock|
  {
    if clock == "" {
      assert clock + rest == rest;
    } else {
      assert (clock + rest)[1..] == clock[1..] + rest;
      ClockLengthIs(clock[1..], rest);
    }
  }

  lemma ReadClockedLine(clock: string, text: string)
    requires ']' !in clock
    ensures ReadLine("[" + clock + "]" + " " + text)
            == if ReadClock(clock).Some? then Some(Spoke(ReadClock(clock).value, text)) else None
  {
    var line := "[" + clock + "]" + " " + text;
    var rest := "] " + text;
    assert line[1..] == clock + rest;
    ClockLengthIs(clock, rest);
    assert line[1..|clock| + 1] == clock && line[|clock| + 1..] == rest && rest[2..] == text;
  }

  /** A line gives its second and its text back; a segment that starts before zero has a line that cannot be read. */
  lemma LineRead(u: Alphabet, s: Segment)
    ensures ReadLine(Line(u, s)) ==
            if Truncate(s.start) >= 0 then Some(Spoke(Truncate(s.start), Strip(u, s.text))) else None
  {
    var total := Truncate(s.start);
    if total >= 0 {
      ClockRead(total);
    } else {
      NegativeClock(total);
    }
    ReadClockedLine(Clock(total), Strip(u, s.text));
  }

  lemma Minus(n: int)
    requires n < 0
    ensures var s := TwoDigits(n); !Digits(s) && ':' !in s && ']' !in s
  {
    assert TwoDigits(n)[0] == '-';
  }

  lemma NegativeClock(total: int)
    requires total < 0
    ensures ReadClock(Clock(total)) == None && ']' !in Clock(total)
  {
    ClockSum(total);
    var rest := total % 3600;
    var a, b, c := TwoDigits(total / 3600), TwoDigits(rest / 60), TwoDigits(rest % 60);
    Minus(total / 3600);
    TwoDigitsRead(rest / 60);
    TwoDigitsRead(rest % 60);
    NoMarks(b);
    NoMarks(c);
    SplitClock(a, b, c);
    NoBracket(a, b, c);
  }

  // ---- the whole text ----

  ghost predicate OneLine(u: Alphabet, s: Segment) {
    '\n' !in Strip(u, s.text)
  }

  lemma NoBreakInTimecode(u: Alphabet, s: Segment)
    ensures '\n' in Line(u, s) <==> !OneLine(u, s)
  {
    var total := Truncate(s.start);
    DigitsOnly(total / 3600);
    DigitsOnly(total % 3600 / 60);
    DigitsOnly(total % 3600 % 60);
    assert '\n' !in Clock(total);
  }

  lemma DigitsOnly(n: int)
    ensures '\n' !in TwoDigits(n)
  {
  }

  /** Splitting what was joined gives more pieces when a piece has the separator in it. */
  lemma {:induction false} PiecesCounted(pieces: seq<string>, sep: char)
    requires pieces != []
    ensures |Split(Join(pieces, sep), sep)| >= |pieces|
    ensures |Split(Join(pieces, sep), sep)| == |pieces| ==> forall p :: p in pieces ==> sep !in p
  {
    if |pieces| == 1 {
      OnePiece(pieces[0], sep);
    } else {
      PiecesCounted(pieces[1..], sep);
      Matching.SplitConcat(pieces[0], sep, Join(pieces[1..], sep));
      OnePiece(pieces[0], sep);
      assert pieces == [pieces[0]] + pieces[1..];
    }
  }

  lemma {:induction false} OnePiece(s: string, sep: char)
    ensures |Split(s, sep)| == 1 ==> sep !in s
  {
    if s != "" && s[0] != sep {
      OnePiece(s[1..], sep);
      assert s == [s[0]] + s[1..];
    }
  }

  lemma {:induction false} ReadEach(lines: seq<string>)
    ensures ReadLines(lines).Some? <==> forall i :: 0 <= i < |lines| ==> ReadLine(lines[i]).Some?
    ensures ReadLines(lines).Some? ==>
              |ReadLines(lines).value| == |lines|
              && forall i :: 0 <= i < |lines| ==> ReadLines(lines).value[i] == ReadLine(lines[i]).value
  {
    if lines != [] {
      ReadEach(lines[1..]);
      assert forall i :: 0 < i < |lines| ==> lines[i] == lines[1..][i - 1];
    }
  }

  lemma ReadTimed(u: Alphabet, segments: seq<Segment>)
    ensures ReadLines(Lines(u, segments)).Some? <==> Timed(segments)
    ensures Timed(segments) ==> ReadLines(Lines(u, segments)).value == SpokenAt(u, segments)
  {
    var lines := Lines(u, segments);
    ReadEach(lines);
    forall i | 0 <= i < |segments|
      ensures ReadLine(lines[i]) == if Truncate(segments[i].start) >= 0
                                    then Some(Spoke(Truncate(segments[i].start), Strip(u, segments[i].text))) else None
    {
      LineRead(u, segments[i]);
    }
    if ReadLines(lines).Some? {
      forall s | s in segments ensures Truncate(s.start) >= 0 {
        var i :| 0 <= i < |segments| && segments[i] == s;
        assert ReadLine(lines[i]).Some?;
      }
    }
  }

  lemma JoinedNotEmpty(u: Alphabet, kept: seq<Segment>)
    requires kept != []
    ensures Join(Lines(u, kept), '\n') != ""
  {
    assert Line(u, kept[0])[0] == '[';
    assert Lines(u, kept)[0] == Line(u, kept[0]);
  }

  ghost predicate Readable(u: Alphabet, kept: seq<Segment>) {
    Timed(kept) && forall s :: s in kept ==> OneLine(u, s)
  }

  lemma ReadableText(u: Alphabet, kept: seq<Segment>)
    requires Readable(u, kept)
    ensures ReadFullText(Join(Lines(u, kept), '\n')) == Some(SpokenAt(u, kept))
  {
    if kept == [] {
      assert Lines(u, kept) == [] && SpokenAt(u, kept) == [];
    } else {
      var lines := Lines(u, kept);
      forall p | p in lines ensures '\n' !in p {
        var i :| 0 <= i < |kept| && lines[i] == p;
        NoBreakInTimecode(u, kept[i]);
      }
      SplitJoin(lines, '\n');
      JoinedNotEmpty(u, kept);
      ReadTimed(u, kept);
    }
  }

  lemma UnreadableText(u: Alphabet, kept: seq<Segment>, found: seq<Spoke>)
    requires ReadFullText(Join(Lines(u, kept), '\n')) == Some(found) && |found| == |kept|
    ensures Readable(u, kept)
  {
    if kept != [] {
      var lines := Lines(u, kept);
      JoinedNotEmpty(u, kept);
      ReadEach(Split(Join(lines, '\n'), '\n'));
      PiecesCounted(lines, '\n');
      SplitJoin(lines, '\n');
      ReadTimed(u, kept);
      forall s | s in kept ensures OneLine(u, s) {
        var i :| 0 <= i < |kept| && kept[i] == s;
        assert lines[i] in lines;
        NoBreakInTimecode(u, s);
      }
    }
  }

  /** The first piece of what is joined starts with the first pieces of each part. */
  lemma {:induction false} FirstPieces(pieces: seq<string>, sep: char, i: nat)
    requires i < |pieces|
    ensures Split(pieces[i], sep)[0] in Split(Join(pieces, sep), sep)
  {
    if |pieces| > 1 {
      Matching.SplitConcat(pieces[0], sep, Join(pieces[1..], sep));
      if i > 0 {
        FirstPieces(pieces[1..], sep, i - 1);
      } else {
        assert Split(pieces[0], sep)[0] in Split(pieces[0], sep);
      }
    }
  }

  lemma {:induction false} HeadOfPiece(head: string, rest: string, sep: char)
    requires sep !in head
    ensures Split(head + rest, sep)[0] == head + Split(rest, sep)[0]
  {
    if head == "" {
      assert head + rest == rest;
    } else {
      assert (head + rest)[1..] == head[1..] + rest;
      HeadOfPiece(head[1..], rest, sep);
      assert [head[0]] + head[1..] == head;
      Associative([head[0]], head[1..], Split(rest, sep)[0]);
    }
  }

  lemma NoBreakInClock(total: int)
    ensures '\n' !in "[" + Clock(total) + "]" + " "
  {
    DigitsOnly(total / 3600);
    DigitsOnly(total % 3600 / 60);
    DigitsOnly(total % 3600 % 60);
  }

  /** The line of a segment that starts before zero cannot be read, wherever its text is broken. */
  lemma FirstLineUnreadable(u: Alphabet, s: Segment)
    requires Truncate(s.start) < 0
    ensures ReadLine(Split(Line(u, s), '\n')[0]) == None
  {
    var total, text := Truncate(s.start), Strip(u, s.text);
    NoBreakInClock(total);
    HeadOfPiece("[" + Clock(total) + "]" + " ", text, '\n');
    NegativeClock(total);
    ReadClockedLine(Clock(total), Split(text, '\n')[0]);
  }

  lemma UntimedText(u: Alphabet, kept: seq<Segment>, i: nat)
    requires i < |kept| && Truncate(kept[i].start) < 0
    ensures ReadFullText(Join(Lines(u, kept), '\n')) == None
  {
    var lines := Lines(u, kept);
    JoinedNotEmpty(u, kept);
    FirstLineUnreadable(u, kept[i]);
    FirstPieces(lines, '\n', i);
    ReadEach(Split(Join(lines, '\n'), '\n'));
  }

  /**
    Reading FullText back fails when a spoken segment starts a second or more before zero. Otherwise it gives
    exactly the spoken segments in order, each with its whole second and its text, precisely when none
    has a line break in its text; minutes and seconds are then below sixty, and the hours are unbounded.
   */
  lemma FullTextReadBack(u: Alphabet, segments: seq<Segment>)
    ensures var kept, read := Spoken(u, segments), ReadFullText(FullText(u, segments));
            && (!Timed(kept) ==> read == None)
            && (Timed(kept) ==> (read == Some(SpokenAt(u, kept)) <==> forall s :: s in kept ==> OneLine(u, s)))
  {
    var kept := Spoken(u, segments);
    if !Timed(kept) {
      var i: nat :| i < |kept| && Truncate(kept[i].start) < 0;
      UntimedText(u, kept, i);
    } else if Readable(u, kept) {
      ReadableText(u, kept);
    } else if ReadFullText(FullText(u, segments)) == Some(SpokenAt(u, kept)) {
      UnreadableText(u, kept, SpokenAt(u, kept));
    }
  }

  function TextsOf(list: seq<Spoke>): seq<string> {
    seq(|list|, i requires 0 <= i < |list| => list[i].text)
  }

  /** The plain text is FullText without the timecodes, joined by blanks. */
  lemma PlainTextIsFullTextWithoutTimecodes(u: Alphabet, segments: seq<Segment>)
    requires Readable(u, Spoken(u, segments))
    ensures var read := ReadFullText(FullText(u, segments));
            read.Some? && PlainText(u, segments) == Join(TextsOf(read.value), ' ')
  {
    var kept := Spoken(u, segments);
    ReadableText(u, kept);
    assert TextsOf(SpokenAt(u, kept)) == Texts(u, kept);
  }
}
