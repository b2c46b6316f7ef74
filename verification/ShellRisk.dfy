/** The recursive risk assessment of a command line (maurice/kernel/shell_parser.py:135-183). */
module ShellRisk {
  import opened Wrappers
  import opened ShellParser

  datatype Risk = Safe | Elevated | Critical

  datatype ParseResult = ParseResult(safe: bool, level: Risk, reason: string, tooComplex: bool)

  /** The three pattern tables; each gives the reason of its first matching row.  The regular
      expressions themselves stay open. */
  datatype Tables = Tables(
    critical: string -> Option<string>,
    complexity: string -> Option<string>,
    elevated: string -> Option<string>)

  const CHAIN_PREFIX := "AND-conditional contains risky command: "

  function Rank(level: Risk): nat {
    match level case Safe => 0 case Elevated => 1 case Critical => 2
  }

  /** `parse`. */
  function Assess(t: Tables, command: string): (r: ParseResult)
    ensures r.safe <==> r.level.Safe?
    decreases |command|
  {
    var cmd := Strip(command);
    if cmd == "" then ParseResult(true, Safe, "Empty command.", false)
    else if t.critical(cmd).Some? then ParseResult(false, Critical, t.critical(cmd).value, false)
    else
      PartsAreShorter(command);
      match Split(cmd)
      case Some(parts) =>
        ChainVerdict(seq(|parts|, i requires 0 <= i < |parts| => Assess(t, parts[i])))
      case None => AssessSingle(t, cmd)
  }

  /** The two table scans for a command that is not a chain. */
  function AssessSingle(t: Tables, cmd: string): (r: ParseResult)
    ensures r.safe <==> t.complexity(cmd).None? && t.elevated(cmd).None?
    ensures r.safe <==> r.level.Safe?
  {
    if t.complexity(cmd).Some? then ParseResult(false, Elevated, t.complexity(cmd).value, true)
    else if t.elevated(cmd).Some? then ParseResult(false, Elevated, t.elevated(cmd).value, false)
    else ParseResult(true, Safe, "No hazard detected.", false)
  }

  function FirstCritical(rs: seq<ParseResult>): (r: Option<ParseResult>)
    ensures r.Some? ==> r.value in rs && r.value.level.Critical?
    ensures r.None? <==> forall i :: 0 <= i < |rs| ==> !rs[i].level.Critical?
  {
    if rs == [] then None
    else if rs[0].level.Critical? then Some(rs[0])
    else FirstCritical(rs[1..])
  }

  function FirstRisky(rs: seq<ParseResult>): (r: Option<ParseResult>)
    ensures r.Some? ==> r.value in rs && !r.value.safe
    ensures r.None? <==> forall i :: 0 <= i < |rs| ==> rs[i].safe
  {
    if rs == [] then None
    else if !rs[0].safe then Some(rs[0])
    else FirstRisky(rs[1..])
  }

  /** What a chain is worth, given the verdicts on its operands: the first critical one as it is, else
      the first risky one, reported as part of a chain. */
  function ChainVerdict(rs: seq<ParseResult>): (r: ParseResult)
    requires forall i :: 0 <= i < |rs| ==> (rs[i].safe <==> rs[i].level.Safe?)
    ensures r.safe <==> r.level.Safe?
  {
    var critical, risky := FirstCritical(rs), FirstRisky(rs);
    if critical.Some? then critical.value
    else if risky.Some? then
      ParseResult(false, risky.value.level, CHAIN_PREFIX + risky.value.reason, risky.value.tooComplex)
    else ParseResult(true, Safe, "Safe AND-conditional command chain.", false)
  }

  /** The recursion ends: every operand is shorter than the command. */
  lemma PartsAreShorter(command: string)
    ensures var cmd := Strip(command);
            Split(cmd).Some? ==>
              forall i :: 0 <= i < |Split(cmd).value| ==> |Split(cmd).value[i]| < |command|
  {
    var cmd := Strip(command);
    StripFacts(command);
    if Split(cmd).Some? {
      forall i | 0 <= i < |Split(cmd).value|
        ensures |Split(cmd).value[i]| < |command|
      {
        SegmentsAreShorter(cmd, NEUTRAL, i);
        StripFacts(Raw(cmd, NEUTRAL)[i]);
      }
    }
  }

  // ----- the code -----

  method Parse(t: Tables, command: string) returns (result: ParseResult)
    ensures result == Assess(t, command)
    decreases |command|, 1
  {
    var cmd := Strip(command);
    if cmd == "" {
      return ParseResult(true, Safe, "Empty command.", false);
    }
    var critical := t.critical(cmd);
    if critical.Some? {
      return ParseResult(false, Critical, critical.value, false);
    }
    var parts := SplitSimpleAndChain(cmd);
    if parts.Some? {
      PartsAreShorter(command);
      result := ParseAndChain(t, parts.value, |command|);
      return;
    }
    var complexity := t.complexity(cmd);
    if complexity.Some? {
      return ParseResult(false, Elevated, complexity.value, true);
    }
    var elevated := t.elevated(cmd);
    if elevated.Some? {
      return ParseResult(false, Elevated, elevated.value, false);
    }
    return ParseResult(true, Safe, "No hazard detected.", false);
  }

  method ParseAndChain(t: Tables, parts: seq<string>, ghost size: nat) returns (result: ParseResult)
    requires forall i :: 0 <= i < |parts| ==> |parts[i]| < size
    ensures result == ChainVerdict(seq(|parts|, i requires 0 <= i < |parts| => Assess(t, parts[i])))
    decreases size, 0
  {
    ghost var rs := seq(|parts|, i requires 0 <= i < |parts| => Assess(t, parts[i]));
    var worst: Option<ParseResult> := None;
    for i := 0 to |parts|
      invariant FirstCritical(rs) == FirstCritical(rs[i..])
      invariant FirstRisky(rs) == if worst.Some? then worst else FirstRisky(rs[i..])
    {
      var r := Parse(t, parts[i]);
      assert rs[i..][0] == r && rs[i..][1..] == rs[i + 1..];
      if r.safe {
        continue;
      }
      if r.level.Critical? {
        return r;
      }
      if worst.None? {
        worst := Some(r);
      }
    }
    if worst.Some? {
      var w := worst.value;
      return ParseResult(false, w.level, CHAIN_PREFIX + w.reason, w.tooComplex);
    }
    return ParseResult(true, Safe, "Safe AND-conditional command chain.", false);
  }

  // ----- what a verdict means -----

  function MaxRank(t: Tables, parts: seq<string>): nat {
    if parts == [] then 0
    else
      var first, rest := Rank(Assess(t, parts[0]).level), MaxRank(t, parts[1..]);
      if first > rest then first else rest
  }

  /** A chain that is not itself critical is exactly as risky as its riskiest operand, and safe exactly
      when every operand is. */
  lemma ChainRiskIsMaximum(t: Tables, command: string)
    requires t.critical(Strip(command)).None? && Split(Strip(command)).Some?
    ensures var parts := Split(Strip(command)).value;
            && Rank(Assess(t, command).level) == MaxRank(t, parts)
            && (Assess(t, command).safe
                <==> forall i :: 0 <= i < |parts| ==> Assess(t, parts[i]).safe)
  {
    var parts := Split(Strip(command)).value;
    var rs := seq(|parts|, i requires 0 <= i < |parts| => Assess(t, parts[i]));
    assert Strip(command) != "" by {
      assert Raw("", NEUTRAL) == [""];
    }
    MaxRankIsReached(t, parts, rs);
    assert forall i :: 0 <= i < |rs| ==> (rs[i].safe <==> Assess(t, parts[i]).safe);
  }

  lemma {:induction false} MaxRankIsReached(t: Tables, parts: seq<string>, rs: seq<ParseResult>)
    requires |rs| == |parts| && forall i :: 0 <= i < |rs| ==> rs[i] == Assess(t, parts[i])
    ensures forall i :: 0 <= i < |rs| ==> (rs[i].safe <==> rs[i].level.Safe?)
    ensures Rank(ChainVerdict(rs).level) == MaxRank(t, parts)
  {
    if parts != [] {
      MaxRankIsReached(t, parts[1..], rs[1..]);
    }
  }

  /** An operand is judged by the tables alone; the recursion is one level deep. */
  lemma OperandVerdict(t: Tables, command: string, i: nat)
    requires i < |Operands(command)| && Operands(command)[i] != ""
    ensures var part := Operands(command)[i];
            Assess(t, part) == if t.critical(part).Some?
                               then ParseResult(false, Critical, t.critical(part).value, false)
                               else AssessSingle(t, part)
  {
    OperandsAreFlat(command, i);
  }

  /** Nothing in any table matches, and there is something to run. */
  predicate Clean(t: Tables, cmd: string) {
    cmd != "" && t.critical(cmd).None? && t.complexity(cmd).None? && t.elevated(cmd).None?
  }

  /** Two rows of the complexity table: `&&` not preceded by `|`, and `&` at the end. */
  ghost predicate BareAnd(s: string) {
    exists i :: 0 <= i < |s| - 1 && s[i] == '&' && s[i + 1] == '&' && (i == 0 || s[i - 1] != '|')
  }

  predicate TrailingAmpersand(s: string) {
    s != "" && s[|s| - 1] == '&'
  }

  ghost predicate HasAmpersandRows(t: Tables) {
    forall s :: BareAnd(s) || TrailingAmpersand(s) ==> t.complexity(s).Some?
  }

  /** The analyser fails closed.  With those two rows in the table, a non-empty command passes exactly
      when it is not critical as a whole and each of its `&&` operands is clean; a chain with an
      empty operand never passes. */
  lemma SafeMeansEveryOperandClean(t: Tables, command: string)
    requires HasAmpersandRows(t) && Strip(command) != ""
    ensures var cmd := Strip(command);
            Assess(t, command).safe
            <==> t.critical(cmd).None?
                 && forall i :: 0 <= i < |Operands(cmd)| ==> Clean(t, Operands(cmd)[i])
  {
    var cmd := Strip(command);
    var parts := Operands(cmd);
    StripIdempotent(command);
    if |parts| == 1 {
      RejoinGivesCommand(cmd, NEUTRAL);
      assert parts[0] == cmd;
    } else if "" in parts {
      BlankOperandIsCaught(command);
    } else if t.critical(cmd).None? {
      ChainRiskIsMaximum(t, command);
      forall i | 0 <= i < |parts|
        ensures Assess(t, parts[i]).safe <==> Clean(t, parts[i])
      {
        OperandVerdict(t, cmd, i);
      }
    }
  }

  lemma BlankOperandIsCaught(command: string)
    requires Strip(command) != "" && |Operands(Strip(command))| > 1 && "" in Operands(Strip(command))
    ensures BareAnd(Strip(command)) || TrailingAmpersand(Strip(command))
  {
    var cmd := Strip(command);
    var segs := Raw(cmd, NEUTRAL);
    StripFacts(command);
    RejoinGivesCommand(cmd, NEUTRAL);
    var i :| 0 <= i < |segs| && Operands(cmd)[i] == "";
    StripFacts(segs[i]);
    if i == 0 {
      BlankFirst(segs[0], Join(segs[1..]));
    } else if i == |segs| - 1 {
      var x := JoinLast(segs);
      BlankLast(x, segs[i]);
    } else {
      var x, y := JoinMiddle(segs, i);
      BlankMiddle(x, segs[i], y);
    }
  }

  predicate AllSpace(s: string) {
    forall i :: 0 <= i < |s| ==> IsSpace(s[i])
  }

  lemma BlankFirst(seg: string, y: string)
    requires AllSpace(seg) && !IsSpace((seg + "&&" + y)[0])
    ensures BareAnd(seg + "&&" + y)
  {
    assert seg == "";
    var cmd := seg + "&&" + y;
    assert cmd[0] == '&' && cmd[1] == '&';
  }

  lemma BlankLast(x: string, seg: string)
    requires AllSpace(seg)
    requires var cmd := x + "&&" + seg; !IsSpace(cmd[|cmd| - 1])
    ensures TrailingAmpersand(x + "&&" + seg)
  {
  }

  lemma BlankMiddle(x: string, seg: string, y: string)
    requires AllSpace(seg)
    ensures BareAnd(x + "&&" + seg + "&&" + y)
  {
    var cmd, q := x + "&&" + seg + "&&" + y, |x| + 2 + |seg|;
    assert cmd[q] == '&' && cmd[q + 1] == '&';
    assert cmd[q - 1] == if seg == "" then '&' else seg[|seg| - 1];
  }

  lemma {:induction false} JoinLast(segs: seq<string>) returns (x: string)
    requires |segs| > 1
    ensures Join(segs) == x + "&&" + segs[|segs| - 1]
  {
    if |segs| == 2 {
      x := segs[0];
    } else {
      var y := JoinLast(segs[1..]);
      x := segs[0] + "&&" + y;
    }
  }

  lemma {:induction false} JoinMiddle(segs: seq<string>, i: nat) returns (x: string, y: string)
    requires 0 < i < |segs| - 1
    ensures Join(segs) == x + "&&" + segs[i] + "&&" + y
  {
    if i == 1 {
      x, y := segs[0], Join(segs[1..][1..]);
    } else {
      var z;
      z, y := JoinMiddle(segs[1..], i - 1);
      x := segs[0] + "&&" + z;
    }
  }

  /** The text on either side is empty or set off by a blank or an `&`. */
  predicate SetOff(x: string, y: string) {
    (x != "" ==> IsBreak(x[|x| - 1])) && (y != "" ==> IsBreak(y[0]))
  }

  predicate IsBreak(c: char) {
    c == '&' || IsSpace(c)
  }

  /** The critical rows are not anchored to the ends of the text, and their word boundaries stay where
      they are next to a blank or an `&`: a match in a text is one in any text it is set off in. */
  ghost predicate CriticalSeenInside(t: Tables) {
    forall x, s, y :: t.critical(s).Some? && SetOff(x, y) ==> t.critical(x + s + y).Some?
  }

  /** Then splitting neither hides nor invents a critical command: the verdict is critical exactly
      when the whole command matches a critical row. */
  lemma CriticalExactly(t: Tables, command: string)
    requires CriticalSeenInside(t) && Strip(command) != ""
    ensures Assess(t, command).level.Critical? <==> t.critical(Strip(command)).Some?
  {
    var cmd := Strip(command);
    if t.critical(cmd).None? && Split(cmd).Some? {
      var parts := Split(cmd).value;
      var rs := seq(|parts|, i requires 0 <= i < |parts| => Assess(t, parts[i]));
      forall i | 0 <= i < |parts|
        ensures !rs[i].level.Critical?
      {
        OperandVerdict(t, cmd, i);
        var x, y := OperandInside(cmd, i);
        assert t.critical(x + parts[i] + y).None?;
      }
    }
  }

  lemma OperandInside(cmd: string, i: nat) returns (x: string, y: string)
    requires i < |Operands(cmd)| && |Operands(cmd)| > 1
    ensures cmd == x + Operands(cmd)[i] + y && SetOff(x, y)
  {
    var segs := Raw(cmd, NEUTRAL);
    RejoinGivesCommand(cmd, NEUTRAL);
    var z, w := SegmentInside(segs, i);
    var a, b := StripInside(segs[i]);
    x, y := z + a, b + w;
    Reassociate(z, a, Strip(segs[i]), b, w);
    assert a != "" ==> x[|x| - 1] == a[|a| - 1];
  }

  lemma Reassociate(z: string, a: string, p: string, b: string, w: string)
    ensures z + (a + p + b) + w == (z + a) + p + (b + w)
  {
  }

  lemma {:induction false} SegmentInside(segs: seq<string>, i: nat) returns (z: string, w: string)
    requires i < |segs|
    ensures Join(segs) == z + segs[i] + w && SetOff(z, w)
  {
    if |segs| == 1 {
      z, w := "", "";
    } else if i == 0 {
      z, w := "", "&&" + Join(segs[1..]);
    } else {
      var z';
      z', w := SegmentInside(segs[1..], i - 1);
      z := segs[0] + "&&" + z';
      Prefixed(segs[0] + "&&", z', segs[i], w);
    }
  }

  lemma Prefixed(head: string, z: string, p: string, w: string)
    requires head != "" && IsBreak(head[|head| - 1]) && SetOff(z, w)
    ensures head + (z + p + w) == (head + z) + p + w && SetOff(head + z, w)
  {
    assert (head + z)[|head + z| - 1] == if z == "" then head[|head| - 1] else z[|z| - 1];
  }

  lemma StripInside(s: string) returns (x: string, y: string)
    ensures s == x + Strip(s) + y && AllSpace(x) && AllSpace(y)
  {
    x := TrimLeftInside(s);
    y := TrimRightInside(TrimLeft(s));
  }

  lemma {:induction false} TrimLeftInside(s: string) returns (x: string)
    ensures s == x + TrimLeft(s) && AllSpace(x)
  {
    if s != "" && IsSpace(s[0]) {
      x := TrimLeftInside(s[1..]);
      x := s[..1] + x;
    } else {
      x := "";
    }
  }

  lemma {:induction false} TrimRightInside(s: string) returns (y: string)
    ensures s == TrimRight(s) + y && AllSpace(y)
  {
    if s != "" && IsSpace(s[|s| - 1]) {
      var n := |s| - 1;
      var y' := TrimRightInside(s[..n]);
      y := y' + s[n..];
      assert s == s[..n] + s[n..];
      assert (TrimRight(s[..n]) + y') + s[n..] == TrimRight(s[..n]) + (y' + s[n..]);
    } else {
      y := "";
    }
  }
}
