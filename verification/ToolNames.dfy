/** Tool names as one provider accepts them (maurice/kernel/providers.py:767-823).

    A declared tool name may hold characters the provider refuses.  Each name is rewritten to a safe
    one, a suffix is added until it is unused, and the answer of the provider is mapped back. */
module ToolNames {
  import opened Wrappers

  /** `char.isalnum()`; which characters it accepts does not matter here. */
  type Alphabet = char -> bool

  function SafeChar(isAlnum: Alphabet, c: char): char {
    if isAlnum(c) || c == '_' || c == '-' then c else '_'
  }

  function SafeName(isAlnum: Alphabet, name: string): string {
    seq(|name|, i requires 0 <= i < |name| => SafeChar(isAlnum, name[i]))
  }

  function Digit(n: nat): (c: char)
    requires n < 10
  {
    "0123456789"[n]
  }

  /** Decimal notation, as an f-string prints an `int`. */
  function Decimal(n: nat): (s: string)
    ensures s != []
  {
    if n < 10 then [Digit(n)] else Decimal(n / 10) + [Digit(n % 10)]
  }

  lemma {:induction false} DecimalInjective(m: nat, n: nat)
    requires Decimal(m) == Decimal(n)
    ensures m == n
  {
    var dm, dn := Decimal(m), Decimal(n);
    assert dm[|dm| - 1] == Digit(m % 10) && dn[|dn| - 1] == Digit(n % 10);
    if m >= 10 && n >= 10 {
      assert Decimal(m / 10) == dm[..|dm| - 1] == dn[..|dn| - 1] == Decimal(n / 10);
      DecimalInjective(m / 10, n / 10);
    }
  }

  function Suffixed(safe: string, suffix: nat): string {
    safe + "_" + Decimal(suffix)
  }

  lemma SuffixedInjective(safe: string, m: nat, n: nat)
    ensures safe + "_" <= Suffixed(safe, m) && Suffixed(safe, m) != safe
    ensures Suffixed(safe, m) == Suffixed(safe, n) ==> m == n
  {
    assert |Suffixed(safe, m)| > |safe|;
    if Suffixed(safe, m) == Suffixed(safe, n) {
      var k := |safe| + 1;
      assert Decimal(m) == Suffixed(safe, m)[k..] == Suffixed(safe, n)[k..] == Decimal(n);
      DecimalInjective(m, n);
    }
  }

  /** The candidate a `while candidate in used` loop settles on: the bare name if it is free,
      otherwise the first free suffix counting from 2. */
  ghost predicate IsFirstFree(safe: string, used: set<string>, c: string) {
    && c !in used
    && (c == safe
        || (safe in used && exists k: nat :: IsFirstFreeSuffix(safe, used, c, k)))
  }

  ghost predicate IsFirstFreeSuffix(safe: string, used: set<string>, c: string, k: nat) {
    && 2 <= k && c == Suffixed(safe, k)
    && forall j: nat :: 2 <= j < k ==> Suffixed(safe, j) in used
  }

  lemma FirstFreeUnique(safe: string, used: set<string>, c: string, d: string)
    requires IsFirstFree(safe, used, c) && IsFirstFree(safe, used, d)
    ensures c == d
  {
    if c != safe && d != safe {
      var k: nat :| IsFirstFreeSuffix(safe, used, c, k);
      var l: nat :| IsFirstFreeSuffix(safe, used, d, l);
    }
  }

  /** The inner loop.  Every candidate tried is used and no two are alike, so the loop ends after
      at most |used| rounds. */
  method FreshName(safe: string, used: set<string>) returns (candidate: string)
    ensures IsFirstFree(safe, used, candidate)
  {
    candidate := safe;
    var suffix: nat := 2;
    ghost var tried: set<string> := {};
    SuffixesFresh(safe, safe, 2);
    while candidate in used
      invariant suffix >= 2 && tried <= used && candidate !in tried
      invariant forall k: nat :: k >= suffix ==> Suffixed(safe, k) !in tried + {candidate}
      invariant if suffix == 2 then candidate == safe
                else safe in used && candidate == Suffixed(safe, suffix - 1)
      invariant forall j: nat :: 2 <= j < suffix - 1 ==> Suffixed(safe, j) in used
      decreases |used - tried|
    {
      ghost var untried := used - tried;
      tried := tried + {candidate};
      ShrinkingSets(used - tried, untried, candidate);
      candidate := Suffixed(safe, suffix);
      SuffixesFresh(safe, candidate, suffix + 1);
      suffix := suffix + 1;
    }
    assert suffix == 2 || IsFirstFreeSuffix(safe, used, candidate, suffix - 1);
  }

  lemma SuffixesFresh(safe: string, candidate: string, next: nat)
    requires candidate == safe || (next > 0 && candidate == Suffixed(safe, next - 1))
    ensures forall k: nat :: k >= next ==> Suffixed(safe, k) != candidate
  {
    forall k: nat | k >= next
      ensures Suffixed(safe, k) != candidate
    {
      SuffixedInjective(safe, k, if next > 0 then next - 1 else 0);
    }
  }

  lemma ShrinkingSets<T>(small: set<T>, large: set<T>, x: T)
    requires small <= large - {x} && x in large
    ensures |small| < |large|
  {
    var rest := large - {x} - small;
    assert large == small + rest + {x};
  }

  ghost predicate Injective(m: map<string, string>) {
    forall a, b :: a in m && b in m && m[a] == m[b] ==> a == b
  }

  /** `_tool_name_map`, for every list of tool names, repeated names included. */
  method ToolNameMap(isAlnum: Alphabet, names: seq<string>) returns (result: map<string, string>)
    ensures forall n :: n in result <==> n in names
    ensures Injective(result)
    ensures AllVariants(isAlnum, result)
    ensures AllSafe(isAlnum, result) <==> SafeNamesDistinct(isAlnum, names)
  {
    var used: set<string> := {};
    result := map[];
    for i := 0 to |names|
      invariant Mapped(isAlnum, names[..i], used, result)
      invariant AllVariants(isAlnum, result)
      invariant AllSafe(isAlnum, result) <==> SafeNamesDistinct(isAlnum, names[..i])
    {
      var candidate := FreshName(SafeName(isAlnum, names[i]), used);
      VariantsStep(isAlnum, names[i], used, result, candidate);
      MappedStep(isAlnum, names[..i], names[i], used, result, candidate);
      AllSafeStep(isAlnum, names[..i], names[i], used, result, candidate);
      used := used + {candidate};
      result := result[names[i] := candidate];
      PrefixStep(names, i);
    }
    PrefixAll(names);
  }

  /** What the outer loop keeps after the names in `done`. */
  ghost predicate Mapped(isAlnum: Alphabet, done: seq<string>, used: set<string>,
                         result: map<string, string>)
  {
    && (forall n :: n in result <==> n in done)
    && (forall n :: n in result ==> result[n] in used)
    && Injective(result)
    && SafeNames(isAlnum, done) <= used
    && (SafeNamesDistinct(isAlnum, done) ==> used == SafeNames(isAlnum, done))
  }

  function SafeNames(isAlnum: Alphabet, names: seq<string>): set<string> {
    if names == [] then {}
    else SafeNames(isAlnum, names[..|names| - 1]) + {SafeName(isAlnum, names[|names| - 1])}
  }

  ghost predicate IsVariant(safe: string, c: string) {
    c == safe || exists k: nat :: k >= 2 && c == Suffixed(safe, k)
  }

  /** Each tool is declared under its own safe name, possibly with a suffix. */
  ghost predicate AllVariants(isAlnum: Alphabet, nameMap: map<string, string>) {
    forall n :: n in nameMap ==> IsVariant(SafeName(isAlnum, n), nameMap[n])
  }

  lemma VariantsStep(isAlnum: Alphabet, name: string, used: set<string>,
                     nameMap: map<string, string>, candidate: string)
    requires AllVariants(isAlnum, nameMap)
    requires IsFirstFree(SafeName(isAlnum, name), used, candidate)
    ensures AllVariants(isAlnum, nameMap[name := candidate])
  {
  }

  lemma MappedStep(isAlnum: Alphabet, done: seq<string>, name: string, used: set<string>,
                   result: map<string, string>, candidate: string)
    requires Mapped(isAlnum, done, used, result)
    requires IsFirstFree(SafeName(isAlnum, name), used, candidate)
    ensures Mapped(isAlnum, done + [name], used + {candidate}, result[name := candidate])
  {
    assert (done + [name])[..|done|] == done;
    if SafeNamesDistinct(isAlnum, done + [name]) {
      DistinctStep(isAlnum, done, name);
    }
    InjectiveStep(result, name, used, candidate);
  }

  lemma InjectiveStep(m: map<string, string>, name: string, used: set<string>, candidate: string)
    requires Injective(m) && candidate !in used && forall n :: n in m ==> m[n] in used
    ensures Injective(m[name := candidate])
  {
  }

  lemma AllSafeStep(isAlnum: Alphabet, done: seq<string>, name: string, used: set<string>,
                    result: map<string, string>, candidate: string)
    requires Mapped(isAlnum, done, used, result)
    requires AllSafe(isAlnum, result) <==> SafeNamesDistinct(isAlnum, done)
    requires IsFirstFree(SafeName(isAlnum, name), used, candidate)
    ensures AllSafe(isAlnum, result[name := candidate])
            <==> SafeNamesDistinct(isAlnum, done + [name])
  {
    var result', safe := result[name := candidate], SafeName(isAlnum, name);
    DistinctStep(isAlnum, done, name);
    assert result'[name] == candidate;
    if AllSafe(isAlnum, result') {
      assert candidate == safe && safe !in used;
      forall n | n in result
        ensures result[n] == SafeName(isAlnum, n)
      {
        SafeNameIn(isAlnum, done, n);
        assert result'[n] == result[n];
      }
    }
  }

  lemma {:induction false} SafeNameIn(isAlnum: Alphabet, names: seq<string>, name: string)
    requires name in names
    ensures SafeName(isAlnum, name) in SafeNames(isAlnum, names)
  {
    if names[|names| - 1] != name {
      SafeNameIn(isAlnum, names[..|names| - 1], name);
    }
  }

  lemma {:induction false} SafeNamesMembers(isAlnum: Alphabet, names: seq<string>, safe: string)
    requires forall n :: n in names ==> SafeName(isAlnum, n) != safe
    ensures safe !in SafeNames(isAlnum, names)
  {
    if names != [] {
      SafeNamesMembers(isAlnum, names[..|names| - 1], safe);
    }
  }

  lemma DistinctStep(isAlnum: Alphabet, done: seq<string>, name: string)
    ensures SafeNamesDistinct(isAlnum, done + [name])
            <==> SafeNamesDistinct(isAlnum, done)
                 && SafeName(isAlnum, name) !in SafeNames(isAlnum, done)
  {
    var all, safe := done + [name], SafeName(isAlnum, name);
    assert forall i :: 0 <= i < |done| ==> all[i] == done[i];
    assert all[|done|] == name;
    if forall n :: n in done ==> SafeName(isAlnum, n) != safe {
      SafeNamesMembers(isAlnum, done, safe);
    } else {
      var n :| n in done && SafeName(isAlnum, n) == safe;
      SafeNameIn(isAlnum, done, n);
    }
  }

  /** Every tool is declared under exactly the name that `_to_chatgpt_input` (providers.py:672)
      recomputes when it replays the history. */
  ghost predicate AllSafe(isAlnum: Alphabet, nameMap: map<string, string>) {
    forall n :: n in nameMap ==> nameMap[n] == SafeName(isAlnum, n)
  }

  /** The tools have different names, and the rewriting keeps them different. */
  ghost predicate SafeNamesDistinct(isAlnum: Alphabet, names: seq<string>) {
    forall i, j :: 0 <= i < j < |names| ==> SafeName(isAlnum, names[i]) != SafeName(isAlnum, names[j])
  }

  /** What the provider accepts in a name. */
  predicate Permitted(isAlnum: Alphabet, c: char) {
    isAlnum(c) || c in "_-"
  }

  /** The names declared hold only permitted characters, if digits are, and a name that held no others is
      declared as it is wherever no suffix is needed. */
  lemma DeclaredNamesArePermitted(isAlnum: Alphabet, nameMap: map<string, string>, name: string)
    requires AllVariants(isAlnum, nameMap) && name in nameMap && forall c :: '0' <= c <= '9' ==> isAlnum(c)
    ensures forall c :: c in nameMap[name] ==> Permitted(isAlnum, c)
    ensures AllSafe(isAlnum, nameMap) && (forall c :: c in name ==> Permitted(isAlnum, c)) ==> nameMap[name] == name
    ensures |SafeName(isAlnum, name)| == |name|
    ensures forall i :: 0 <= i < |name| && !Permitted(isAlnum, name[i]) ==> SafeName(isAlnum, name)[i] == '_'
  {
    var safe := SafeName(isAlnum, name);
    assert forall i :: 0 <= i < |name| ==> name[i] in name && Permitted(isAlnum, safe[i]);
    if nameMap[name] != safe {
      var k: nat :| k >= 2 && nameMap[name] == Suffixed(safe, k);
      DecimalIsDigits(k);
    }
  }

  lemma {:induction false} DecimalIsDigits(n: nat)
    ensures forall c :: c in Decimal(n) ==> '0' <= c <= '9'
  {
    if n >= 10 {
      DecimalIsDigits(n / 10);
    }
  }

  /** `_reverse_tool_name_map`: with an injective map no original is lost. */
  ghost function Reverse(m: map<string, string>): map<string, string> {
    map safe | safe in m.Values :: var n :| n in m && m[n] == safe; n
  }

  datatype Item = Item(isFunctionCall: bool, name: string, callId: string)

  /** The name `_normalize_chatgpt_response_tool_call` reports for an output item; `None` when the
      item is not a call, or names no tool, or carries no id. */
  ghost function NormalizedName(item: Item, nameMap: map<string, string>): Option<string> {
    if !item.isFunctionCall || item.name == "" || item.callId == "" then None
    else
      var reverse := Reverse(nameMap);
      Some(if item.name in reverse then reverse[item.name] else item.name)
  }

  /** A call for a declared tool, echoed under its safe name, comes back under its own name.  The
      one exception is a tool whose safe name is empty, which the normaliser drops. */
  lemma NameRoundTrip(nameMap: map<string, string>, name: string, callId: string)
    requires Injective(nameMap) && name in nameMap && callId != ""
    ensures NormalizedName(Item(true, nameMap[name], callId), nameMap) == Some(name)
            <==> nameMap[name] != ""
  {
    assert nameMap[name] in nameMap.Values;
  }
}
