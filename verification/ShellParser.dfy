/** The quote-aware `&&` splitter of the shell analyser (maurice/kernel/shell_parser.py:186-226). */
module ShellParser {
  import opened Wrappers

  // ----- the scanner -----

  /** The two variables `quote` and `escaped` of the scan. */
  datatype Mode = Mode(quote: Option<char>, escaped: bool)

  const NEUTRAL := Mode(None, false)

  /** The scan past one character that is not the start of a separator.  A backslash escapes inside
      quotes of either kind too. */
  function Step(m: Mode, c: char): Mode {
    if m.escaped then m.(escaped := false)
    else if c == '\\' then m.(escaped := true)
    else if m.quote.Some? then (if c == m.quote.value then NEUTRAL else m)
    else if c == '\'' || c == '"' then Mode(Some(c), false)
    else m
  }

  /** `&&` outside quotes and escapes. */
  predicate AtSeparator(s: string, m: Mode) {
    m == NEUTRAL && |s| >= 2 && s[0] == '&' && s[1] == '&'
  }

  /** The segments between live separators, before trimming; there is always at least one. */
  function Raw(s: string, m: Mode): (segs: seq<string>)
    ensures segs != []
  {
    if s == "" then [""]
    else if AtSeparator(s, m) then [""] + Raw(s[2..], NEUTRAL)
    else Prepend(s[..1], Raw(s[1..], Step(m, s[0])))
  }

  function Prepend(text: string, segs: seq<string>): seq<string>
    requires segs != []
  {
    [text + segs[0]] + segs[1..]
  }

  lemma PrependLaws(a: string, b: string, segs: seq<string>)
    requires segs != []
    ensures Prepend("", segs) == segs
    ensures Prepend(a, Prepend(b, segs)) == Prepend(a + b, segs)
    ensures Prepend(a, [b] + segs) == [a + b] + segs
  {
    assert "" + segs[0] == segs[0];
    assert a + (b + segs[0]) == (a + b) + segs[0];
    assert ([b] + segs)[1..] == segs;
  }

  /** The scan's mode at the end of a text, and whether the last character is a live `&` that a
      following `&` would pair with. */
  function End(s: string, m: Mode): (Mode, bool) {
    if s == "" then (m, false)
    else if AtSeparator(s, m) then End(s[2..], NEUTRAL)
    else if |s| == 1 then (Step(m, s[0]), m == NEUTRAL && s[0] == '&')
    else End(s[1..], Step(m, s[0]))
  }

  predicate EndsClean(s: string) {
    End(s, NEUTRAL) == (NEUTRAL, false)
  }

  function Join(segs: seq<string>): string
    requires segs != []
  {
    if |segs| == 1 then segs[0] else segs[0] + "&&" + Join(segs[1..])
  }

  // ----- trimming -----

  /** The characters `str.strip` removes. */
  predicate IsSpace(c: char) {
    || '\t' <= c <= '\r' || '\U{1c}' <= c <= ' ' || c == '\U{85}' || c == '\U{a0}' || c == '\U{1680}'
    || '\U{2000}' <= c <= '\U{200a}' || c == '\U{2028}' || c == '\U{2029}' || c == '\U{202f}'
    || c == '\U{205f}' || c == '\U{3000}'
  }

  /** All twenty-nine of them. */
  lemma SpacesExactly(c: char)
    ensures IsSpace(c) <==> || c in "\t\n\U{b}\U{c}\r\U{1c}\U{1d}\U{1e}\U{1f} "
                            || c in "\U{85}\U{a0}\U{1680}\U{2000}\U{2001}\U{2002}\U{2003}\U{2004}\U{2005}\U{2006}"
                            || c in "\U{2007}\U{2008}\U{2009}\U{200a}\U{2028}\U{2029}\U{202f}\U{205f}\U{3000}"
  {
  }

  function TrimLeft(s: string): string {
    if s != "" && IsSpace(s[0]) then TrimLeft(s[1..]) else s
  }

  function TrimRight(s: string): string {
    if s != "" && IsSpace(s[|s| - 1]) then TrimRight(s[..|s| - 1]) else s
  }

  function Strip(s: string): string {
    TrimRight(TrimLeft(s))
  }

  function StripAll(segs: seq<string>): (r: seq<string>)
    ensures |r| == |segs|
    ensures forall i :: 0 <= i < |segs| ==> r[i] == Strip(segs[i])
  {
    seq(|segs|, i requires 0 <= i < |segs| => Strip(segs[i]))
  }

  // ----- the splitter -----

  /** What `_split_simple_and_chain` is for: the trimmed operands of a chain of at least two, none of
      them empty. */
  function Split(command: string): Option<seq<string>> {
    var parts := StripAll(Raw(command, NEUTRAL));
    if |parts| == 1 || "" in parts then None else Some(parts)
  }

  method SplitSimpleAndChain(command: string) returns (result: Option<seq<string>>)
    ensures result == Split(command)
  {
    var parts: seq<string> := [];
    var start := 0;
    var quote: Option<char> := None;
    var escaped := false;
    var index := 0;
    ghost var raw: seq<string> := [];
    ScanStart(command);
    while index < |command|
      invariant 0 <= start <= index <= |command|
      invariant Scanned(command, raw, start, index, Mode(quote, escaped))
      invariant parts == StripAll(raw) && "" !in parts
      decreases |command| - index
    {
      var c := command[index];
      ScanStep(command, raw, start, index, Mode(quote, escaped));
      if escaped {
        escaped := false;
        index := index + 1;
        continue;
      }
      if c == '\\' {
        escaped := true;
        index := index + 1;
        continue;
      }
      if quote.Some? {
        if c == quote.value {
          quote := None;
        }
        index := index + 1;
        continue;
      }
      if c == '\'' || c == '"' {
        quote := Some(c);
        index := index + 1;
        continue;
      }
      if StartsWithSeparator(command, index) {
        var part := Strip(command[start..index]);
        OperandCut(command, raw, command[start..index]);
        raw := raw + [command[start..index]];
        if part == "" {
          return None;
        }
        parts := parts + [part];
        index := index + 2;
        start := index;
        continue;
      }
      index := index + 1;
    }
    ScanEnd(command, raw, start, Mode(quote, escaped));
    if parts == [] {
      return None;
    }
    var tail := Strip(command[start..]);
    OperandCut(command, raw, command[start..]);
    if tail == "" {
      return None;
    }
    parts := parts + [tail];
    return Some(parts);
  }

  predicate StartsWithSeparator(s: string, index: nat) {
    index + 1 < |s| && s[index] == '&' && s[index + 1] == '&'
  }

  /** The scan has cut off `raw`; the current segment runs from `start`, and `index` is next. */
  ghost predicate Scanned(command: string, raw: seq<string>, start: nat, index: nat, m: Mode)
    requires start <= index <= |command|
  {
    Raw(command, NEUTRAL) == raw + Prepend(command[start..index], Raw(command[index..], m))
  }

  lemma ScanStart(command: string)
    ensures Scanned(command, [], 0, 0, NEUTRAL)
  {
    PrependLaws("", "", Raw(command, NEUTRAL));
    assert command[0..0] == "" && command[0..] == command;
  }

  /** One round of the loop: a cut at a live separator, a step over any other character. */
  lemma ScanStep(command: string, raw: seq<string>, start: nat, index: nat, m: Mode)
    requires start <= index < |command| && Scanned(command, raw, start, index, m)
    ensures m == NEUTRAL && StartsWithSeparator(command, index) ==>
              && Scanned(command, raw + [command[start..index]], index + 2, index + 2, NEUTRAL)
              && raw + [command[start..index]] <= Raw(command, NEUTRAL)
    ensures !(m == NEUTRAL && StartsWithSeparator(command, index)) ==>
              Scanned(command, raw, start, index + 1, Step(m, command[index]))
  {
    Slices(command, start, index);
    if m == NEUTRAL && StartsWithSeparator(command, index) {
      Cut(raw, command[start..index], command[index..]);
    } else {
      Extend(command[start..index], command[index..], m);
    }
  }

  lemma Cut(raw: seq<string>, seg: string, rest: string)
    requires AtSeparator(rest, NEUTRAL)
    ensures raw + Prepend(seg, Raw(rest, NEUTRAL)) == (raw + [seg]) + Prepend("", Raw(rest[2..], NEUTRAL))
  {
    var after := Raw(rest[2..], NEUTRAL);
    PrependLaws(seg, "", after);
    assert seg + "" == seg;
    assert raw + ([seg] + after) == (raw + [seg]) + after;
  }

  lemma Extend(seg: string, rest: string, m: Mode)
    requires rest != "" && !AtSeparator(rest, m)
    ensures Prepend(seg, Raw(rest, m)) == Prepend(seg + rest[..1], Raw(rest[1..], Step(m, rest[0])))
  {
    PrependLaws(seg, rest[..1], Raw(rest[1..], Step(m, rest[0])));
  }

  lemma ScanEnd(command: string, raw: seq<string>, start: nat, m: Mode)
    requires start <= |command| && Scanned(command, raw, start, |command|, m)
    ensures Raw(command, NEUTRAL) == raw + [command[start..]]
  {
    Slices(command, start, |command|);
    assert command[start..] + "" == command[start..];
  }

  lemma Slices(s: string, start: nat, index: nat)
    requires start <= index <= |s|
    ensures index == |s| ==> s[start..index] == s[start..] && s[index..] == ""
    ensures index + 1 <= |s| ==>
              && s[index..][0] == s[index] && s[index..][1..] == s[index + 1..]
              && s[start..index] + s[index..][..1] == s[start..index + 1]
    ensures index + 2 <= |s| ==> s[index..][2..] == s[index + 2..] && s[index + 2..index + 2] == ""
  {
  }

  lemma StripAllSnoc(raw: seq<string>, seg: string)
    ensures StripAll(raw + [seg]) == StripAll(raw) + [Strip(seg)]
  {
  }

  lemma OperandCut(command: string, raw: seq<string>, seg: string)
    requires raw + [seg] <= Raw(command, NEUTRAL)
    ensures StripAll(raw + [seg]) == StripAll(raw) + [Strip(seg)]
    ensures Strip(seg) == "" ==> Split(command) == None
  {
    StripAllSnoc(raw, seg);
    if Strip(seg) == "" {
      BlankOperand(command, raw + [seg]);
    }
  }

  lemma BlankOperand(command: string, raw: seq<string>)
    requires raw != [] && raw <= Raw(command, NEUTRAL) && Strip(raw[|raw| - 1]) == ""
    ensures Split(command) == None
  {
    assert StripAll(Raw(command, NEUTRAL))[|raw| - 1] == "";
  }

  // ----- laws of the splitter -----

  /** Joining the segments gives the command back. */
  lemma {:induction false} RejoinGivesCommand(s: string, m: Mode)
    ensures Join(Raw(s, m)) == s
  {
    if s != "" {
      if AtSeparator(s, m) {
        RejoinGivesCommand(s[2..], NEUTRAL);
        var rest := Raw(s[2..], NEUTRAL);
        assert ([""] + rest)[1..] == rest;
      } else {
        RejoinGivesCommand(s[1..], Step(m, s[0]));
        JoinPrepend(s[..1], Raw(s[1..], Step(m, s[0])));
      }
    }
  }

  lemma JoinPrepend(text: string, segs: seq<string>)
    requires segs != []
    ensures Join(Prepend(text, segs)) == text + Join(segs)
  {
    assert Prepend(text, segs)[1..] == segs[1..];
  }

  /** Every cut lies outside quotes and escapes: each segment but the last, scanned by itself, ends
      neutral and not on a lone `&`.  And no segment splits again. */
  lemma {:induction false} CutsAreOutsideQuotes(s: string, m: Mode, i: nat)
    requires i < |Raw(s, m)|
    ensures var from := if i == 0 then m else NEUTRAL;
            && Raw(Raw(s, m)[i], from) == [Raw(s, m)[i]]
            && (i < |Raw(s, m)| - 1 ==> End(Raw(s, m)[i], from) == (NEUTRAL, false))
  {
    if s != "" {
      if AtSeparator(s, m) {
        if i > 0 {
          CutsAreOutsideQuotes(s[2..], NEUTRAL, i - 1);
        }
      } else {
        var m' := Step(m, s[0]);
        CutsAreOutsideQuotes(s[1..], m', i);
        if i == 0 {
          var seg := Raw(s[1..], m')[0];
          SegmentIsPrefix(s[1..], m');
          assert (s[..1] + seg)[1..] == seg;
          assert !AtSeparator(s[..1] + seg, m) by {
            assert seg != "" ==> s[1] == s[1..][0] == seg[0];
          }
          if seg == "" && |Raw(s[1..], m')| > 1 {
            assert AtSeparator(s[1..], m');
          }
        }
      }
    }
  }

  lemma {:induction false} SegmentIsPrefix(s: string, m: Mode)
    ensures Raw(s, m)[0] <= s
    ensures Raw(s, m)[0] == "" && s != "" ==> AtSeparator(s, m)
  {
    if s != "" && !AtSeparator(s, m) {
      SegmentIsPrefix(s[1..], Step(m, s[0]));
    }
  }

  /** The segments of A followed by the segments of B are those of `A && B` exactly when A's scan ends
      outside quotes and escapes and not on a lone `&`. */
  lemma SplittingIsHomomorphic(a: string, b: string)
    ensures Raw(a + "&&" + b, NEUTRAL) == Raw(a, NEUTRAL) + Raw(b, NEUTRAL) <==> EndsClean(a)
  {
    var tail := "&&" + b;
    var segs, last := Raw(a, NEUTRAL), |Raw(a, NEUTRAL)| - 1;
    assert a + "&&" + b == a + tail;
    assert (segs + Raw(b, NEUTRAL))[last] == segs[last];
    if End(a, NEUTRAL).1 {
      LoneAmpersandPairs(a, NEUTRAL, b);
    } else {
      RawAppend(a, NEUTRAL, tail);
      if End(a, NEUTRAL).0 == NEUTRAL {
        assert tail[2..] == b;
        Cut(segs[..last], segs[last], tail);
        PrependLaws("", "", Raw(b, NEUTRAL));
        assert segs == segs[..last] + [segs[last]];
      } else {
        SegmentIsPrefix(tail, End(a, NEUTRAL).0);
        assert Raw(a + tail, NEUTRAL)[last] == segs[last] + Raw(tail, End(a, NEUTRAL).0)[0];
      }
    }
  }

  lemma {:induction false} RawAppend(a: string, m: Mode, x: string)
    requires x != "" && (End(a, m).1 ==> x[0] != '&')
    ensures var segs := Raw(a, m);
            var last := |segs| - 1;
            Raw(a + x, m) == segs[..last] + Prepend(segs[last], Raw(x, End(a, m).0))
  {
    ConcatSlices(a, x);
    if a == "" {
      PrependLaws("", "", Raw(x, m));
    } else if AtSeparator(a, m) {
      RawAppend(a[2..], NEUTRAL, x);
    } else {
      RawAppend(a[1..], Step(m, a[0]), x);
      PrependOverAppend(a[..1], Raw(a[1..], Step(m, a[0])), Raw(x, End(a, m).0));
    }
  }

  lemma ConcatSlices(a: string, x: string)
    ensures a == "" ==> a + x == x
    ensures |a| >= 1 ==> (a + x)[1..] == a[1..] + x && (a + x)[..1] == a[..1]
    ensures |a| >= 2 ==> (a + x)[2..] == a[2..] + x
  {
  }

  lemma PrependOverAppend(c: string, segs: seq<string>, more: seq<string>)
    requires segs != [] && more != []
    ensures var last := |segs| - 1;
            var p := Prepend(c, segs);
            Prepend(c, segs[..last] + Prepend(segs[last], more)) == p[..last] + Prepend(p[last], more)
  {
    var last := |segs| - 1;
    var p := Prepend(c, segs);
    if last == 0 {
      PrependLaws(c, segs[0], more);
      assert segs[..0] + Prepend(segs[0], more) == Prepend(segs[0], more);
    } else {
      assert p[last] == segs[last];
      assert (segs[..last] + Prepend(segs[last], more))[1..] == segs[1..last] + Prepend(segs[last], more);
    }
  }

  lemma {:induction false} LoneAmpersandPairs(a: string, m: Mode, b: string)
    requires End(a, m).1
    ensures var last := |Raw(a, m)| - 1;
            var joined := Raw(a + "&&" + b, m);
            last < |joined| && joined[last] != Raw(a, m)[last]
  {
    var ab := a + "&&" + b;
    if AtSeparator(a, m) {
      assert ab[2..] == a[2..] + "&&" + b;
      LoneAmpersandPairs(a[2..], NEUTRAL, b);
    } else if |a| > 1 {
      assert ab[1..] == a[1..] + "&&" + b && ab[..1] == a[..1];
      LoneAmpersandPairs(a[1..], Step(m, a[0]), b);
      var segs, joined := Raw(a[1..], Step(m, a[0])), Raw(ab[1..], Step(m, a[0]));
      assert (a[..1] + segs[0])[1..] == segs[0] && (a[..1] + joined[0])[1..] == joined[0];
    } else {
      assert ab[0] == '&' && ab[1] == '&';
      assert Raw(a, m)[0] == a[..1] + "";
    }
  }

  /** So for operands none of which is blank, splitting a longer chain is splitting its pieces. */
  lemma SplitOfConcatenation(a: string, b: string)
    requires EndsClean(a)
    requires "" !in Operands(a) && "" !in Operands(b)
    ensures Split(a + "&&" + b) == Some(Operands(a) + Operands(b))
  {
    SplittingIsHomomorphic(a, b);
    assert StripAll(Raw(a, NEUTRAL) + Raw(b, NEUTRAL)) == Operands(a) + Operands(b);
  }

  function Operands(s: string): seq<string> {
    StripAll(Raw(s, NEUTRAL))
  }

  /** Splitting is flat: an operand is trimmed and does not split again. */
  lemma OperandsAreFlat(s: string, i: nat)
    requires i < |Operands(s)|
    ensures var part := Operands(s)[i];
            Strip(part) == part && Raw(part, NEUTRAL) == [part] && Split(part) == None
  {
    var seg := Raw(s, NEUTRAL)[i];
    CutsAreOutsideQuotes(s, NEUTRAL, i);
    StripIdempotent(seg);
    TrimLeftKeepsCount(seg);
    TrimRightKeepsCount(TrimLeft(seg));
    RejoinGivesCommand(Strip(seg), NEUTRAL);
  }

  lemma {:induction false} TrimLeftKeepsCount(s: string)
    ensures |Raw(TrimLeft(s), NEUTRAL)| == |Raw(s, NEUTRAL)|
  {
    if s != "" && IsSpace(s[0]) {
      TrimLeftKeepsCount(s[1..]);
    }
  }

  lemma {:induction false} TrimRightKeepsCount(s: string)
    ensures |Raw(TrimRight(s), NEUTRAL)| <= |Raw(s, NEUTRAL)|
  {
    if s != "" && IsSpace(s[|s| - 1]) {
      TrimRightKeepsCount(s[..|s| - 1]);
      ButLastKeepsCount(s, NEUTRAL);
    }
  }

  lemma {:induction false} ButLastKeepsCount(s: string, m: Mode)
    requires s != ""
    ensures |Raw(s[..|s| - 1], m)| <= |Raw(s, m)|
  {
    var t := s[..|s| - 1];
    ButLastSlices(s);
    if AtSeparator(s, m) {
      if |s| > 2 {
        ButLastKeepsCount(s[2..], NEUTRAL);
      } else {
        assert t == "&";
        assert |Raw("", NEUTRAL)| == 1;
      }
    } else if |s| > 1 {
      ButLastKeepsCount(s[1..], Step(m, s[0]));
    }
  }

  lemma ButLastSlices(s: string)
    ensures |s| > 1 ==> s[1..][..|s[1..]| - 1] == s[..|s| - 1][1..]
    ensures |s| > 2 ==> s[2..][..|s[2..]| - 1] == s[..|s| - 1][2..]
  {
  }

  lemma {:induction false} TrimRightFacts(s: string)
    ensures TrimRight(s) <= s
    ensures TrimRight(TrimRight(s)) == TrimRight(s)
    ensures TrimRight(s) != "" ==> !IsSpace(TrimRight(s)[|TrimRight(s)| - 1])
    ensures TrimRight(s) == "" <==> forall i :: 0 <= i < |s| ==> IsSpace(s[i])
  {
    if s != "" && IsSpace(s[|s| - 1]) {
      TrimRightFacts(s[..|s| - 1]);
    }
  }

  lemma {:induction false} TrimLeftFacts(s: string)
    ensures |TrimLeft(s)| <= |s|
    ensures TrimLeft(s) != "" ==> !IsSpace(TrimLeft(s)[0])
    ensures TrimLeft(s) == "" <==> forall i :: 0 <= i < |s| ==> IsSpace(s[i])
  {
    if s != "" && IsSpace(s[0]) {
      TrimLeftFacts(s[1..]);
      assert forall i :: 0 <= i < |s[1..]| ==> s[1..][i] == s[i + 1];
    }
  }

  lemma StripFacts(s: string)
    ensures |Strip(s)| <= |s|
    ensures Strip(s) != "" ==> !IsSpace(Strip(s)[0]) && !IsSpace(Strip(s)[|Strip(s)| - 1])
    ensures Strip(s) == "" <==> forall i :: 0 <= i < |s| ==> IsSpace(s[i])
  {
    TrimLeftFacts(s);
    TrimRightFacts(TrimLeft(s));
    TrimRightFacts(s);
    if TrimLeft(s) != "" {
      assert !IsSpace(TrimLeft(s)[0]);
    }
  }

  lemma StripIdempotent(s: string)
    ensures Strip(Strip(s)) == Strip(s)
  {
    StripFacts(s);
    TrimRightFacts(TrimLeft(s));
  }

  lemma {:induction false} SegmentsAreShorter(s: string, m: Mode, i: nat)
    requires i < |Raw(s, m)| && |Raw(s, m)| > 1
    ensures |Raw(s, m)[i]| + 2 <= |s|
  {
    if AtSeparator(s, m) {
      if i > 0 && |Raw(s[2..], NEUTRAL)| > 1 {
        SegmentsAreShorter(s[2..], NEUTRAL, i - 1);
      } else if i > 0 {
        RejoinGivesCommand(s[2..], NEUTRAL);
      }
    } else {
      SegmentsAreShorter(s[1..], Step(m, s[0]), i);
    }
  }
}
