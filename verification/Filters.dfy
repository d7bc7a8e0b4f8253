/** The filter property: its parser, its printer and when the one undoes the other. */
module Filters {
  import opened Options
  import opened Text

  /** One filter function; the number its argument stands for is read from the raw text. */
  datatype FilterFunc = FilterFunc(name: string, arg: real, raw: string)

  /** How arguments are read as numbers and numbers written as arguments. */
  datatype Numbers = Numbers(read: (string, string) -> real, write: real -> string)

  /** Written numbers are plain words. */
  ghost predicate Sound(nums: Numbers) {
    forall x :: var w := nums.write(x); w != "" && Trimmed(w) && Balanced(w, 0)
  }

  // ---------------------------------------------------------------- parsing

  predicate IsGap(c: char) {
    c == ' ' || c == '\t'
  }

  /** Past spaces and tabs. */
  function Gap(s: string, i: nat): (e: nat)
    requires i <= |s|
    ensures i <= e <= |s|
    decreases |s| - i
  {
    if i == |s| || !IsGap(s[i]) then i else Gap(s, i + 1)
  }

  /** The next opening parenthesis, or the end of the text. */
  function OpenParen(s: string, i: nat): (e: nat)
    requires i <= |s|
    ensures i <= e <= |s| && (e < |s| ==> s[e] == '(')
    decreases |s| - i
  {
    if i == |s| || s[i] == '(' then i else OpenParen(s, i + 1)
  }

  function Deeper(c: char, depth: nat): nat {
    if c == '(' then depth + 1 else if c == ')' && depth > 0 then depth - 1 else depth
  }

  /** The parenthesis that closes an argument, `depth` deep at `i`, or the end of the text. */
  function CloseParen(s: string, i: nat, depth: nat): (e: nat)
    requires i <= |s|
    ensures i <= e <= |s| && (e < |s| ==> s[e] == ')')
    decreases |s| - i
  {
    if i == |s| || (s[i] == ')' && depth == 0) then i else CloseParen(s, i + 1, Deeper(s[i], depth))
  }

  /** The functions of a filter text from a position on. */
  function Functions(nums: Numbers, s: string, i: nat): seq<FilterFunc>
    requires i <= |s|
    decreases |s| - i
  {
    var start := Gap(s, i);
    var open := OpenParen(s, start);
    if open == |s| then []
    else
      var close := CloseParen(s, open + 1, 0);
      var name, raw := Trim(s[start..open]), Trim(s[open + 1..close]);
      [FilterFunc(name, nums.read(name, raw), raw)] + Functions(nums, s, if close < |s| then close + 1 else close)
  }

  function Parsed(nums: Numbers, s: string): seq<FilterFunc> {
    var t := Trim(s);
    if t == "" || t == "none" then [] else Functions(nums, t, 0)
  }

  method ParseFilter(nums: Numbers, s: string) returns (funcs: seq<FilterFunc>)
    ensures funcs == Parsed(nums, s)
  {
    hide Trim, Gap, OpenParen, CloseParen, Functions;
    var t := Trim(s);
    if t == "" || t == "none" {
      return [];
    }
    funcs := [];
    var i := 0;
    while i < |t|
      invariant 0 <= i <= |t| && funcs + Functions(nums, t, i) == Functions(nums, t, 0)
      decreases |t| - i
    {
      ghost var at := i;
      i := SkipGap(t, i);
      if i >= |t| {
        AtEnd(t);
        NoneAt(nums, t, at);
        return;
      }
      var start := i;
      i := FindOpen(t, start);
      if i >= |t| {
        NoneAt(nums, t, at);
        return;
      }
      ghost var open := i;
      var name := Trim(t[start..i]);
      i := i + 1;
      var argStart := i;
      i := FindClose(t, argStart);
      FunctionsAt(nums, t, at, start, open, i);
      var argStr := Trim(t[argStart..i]);
      if i < |t| {
        i := i + 1;
      }
      var f := FilterFunc(name, nums.read(name, argStr), argStr);
      assert Functions(nums, t, at) == [f] + Functions(nums, t, i);
      assert funcs + ([f] + Functions(nums, t, i)) == funcs + [f] + Functions(nums, t, i);
      funcs := funcs + [f];
    }
    NoFunctions(nums, t);
  }

  /** The functions from a position on, the ends of its name and argument known. */
  lemma FunctionsAt(nums: Numbers, s: string, i: nat, start: nat, open: nat, close: nat)
    requires i <= |s| && start == Gap(s, i) && open == OpenParen(s, start) < |s| && close == CloseParen(s, open + 1, 0)
    ensures var name, raw := Trim(s[start..open]), Trim(s[open + 1..close]);
            Functions(nums, s, i)
            == [FilterFunc(name, nums.read(name, raw), raw)]
               + Functions(nums, s, if close < |s| then close + 1 else close)
  {
    hide Gap, OpenParen, CloseParen, Trim;
  }

  lemma NoneAt(nums: Numbers, s: string, i: nat)
    requires i <= |s| && OpenParen(s, Gap(s, i)) == |s|
    ensures Functions(nums, s, i) == []
  {
    hide Gap, OpenParen, CloseParen, Trim;
  }

  lemma AtEnd(s: string)
    ensures OpenParen(s, |s|) == |s| && Gap(s, |s|) == |s|
  {
  }

  lemma NoFunctions(nums: Numbers, s: string)
    ensures Functions(nums, s, |s|) == []
  {
  }

  method SkipGap(s: string, start: nat) returns (i: nat)
    requires start <= |s|
    ensures i == Gap(s, start)
  {
    i := start;
    while i < |s| && IsGap(s[i])
      invariant start <= i <= |s| && Gap(s, start) == Gap(s, i)
    {
      i := i + 1;
    }
  }

  method FindOpen(s: string, start: nat) returns (i: nat)
    requires start <= |s|
    ensures i == OpenParen(s, start)
  {
    i := start;
    while i < |s| && s[i] != '('
      invariant start <= i <= |s| && OpenParen(s, start) == OpenParen(s, i)
    {
      i := i + 1;
    }
  }

  method FindClose(s: string, start: nat) returns (i: nat)
    requires start <= |s|
    ensures i == CloseParen(s, start, 0)
  {
    i := start;
    var depth: nat := 1;
    while i < |s| && depth > 0
      invariant start <= i <= |s|
      invariant depth > 0 ==> CloseParen(s, start, 0) == CloseParen(s, i, depth - 1)
      invariant depth == 0 ==> i == CloseParen(s, start, 0)
    {
      if s[i] == '(' {
        depth := depth + 1;
      } else if s[i] == ')' {
        depth := depth - 1;
      }
      if depth > 0 {
        i := i + 1;
      }
    }
  }

  // ---------------------------------------------------------------- printing

  function PrintedOne(nums: Numbers, f: FilterFunc): string {
    f.name + "(" + (if f.raw != "" then f.raw else nums.write(f.arg)) + ")"
  }

  function PrintedList(nums: Numbers, funcs: seq<FilterFunc>): string {
    if funcs == [] then ""
    else if |funcs| == 1 then PrintedOne(nums, funcs[0])
    else PrintedOne(nums, funcs[0]) + " " + PrintedList(nums, funcs[1..])
  }

  function Printed(nums: Numbers, funcs: seq<FilterFunc>): string {
    if funcs == [] then "none" else PrintedList(nums, funcs)
  }

  method FormatFilter(nums: Numbers, funcs: seq<FilterFunc>) returns (b: string)
    ensures b == Printed(nums, funcs)
  {
    hide PrintedOne, PrintedList;
    if |funcs| == 0 {
      return "none";
    }
    b := "";
    var i := 0;
    RestIsAll(nums, funcs);
    while i < |funcs|
      invariant 0 <= i <= |funcs|
      invariant b + Rest(nums, funcs, i) == PrintedList(nums, funcs)
    {
      RestStep(nums, funcs, i);
      if i > 0 {
        b := b + " ";
      }
      b := b + PrintedOne(nums, funcs[i]);
      i := i + 1;
    }
  }

  /** What is still to be written, its separator first. */
  function Rest(nums: Numbers, funcs: seq<FilterFunc>, i: nat): string
    requires i <= |funcs|
  {
    if i == |funcs| then "" else (if i > 0 then " " else "") + PrintedList(nums, funcs[i..])
  }

  lemma RestIsAll(nums: Numbers, funcs: seq<FilterFunc>)
    requires funcs != []
    ensures Rest(nums, funcs, 0) == PrintedList(nums, funcs)
  {
    hide PrintedList;
    assert funcs[0..] == funcs && "" + PrintedList(nums, funcs) == PrintedList(nums, funcs);
  }

  lemma RestStep(nums: Numbers, funcs: seq<FilterFunc>, i: nat)
    requires i < |funcs|
    ensures Rest(nums, funcs, i) == (if i > 0 then " " else "") + PrintedOne(nums, funcs[i]) + Rest(nums, funcs, i + 1)
  {
    hide PrintedOne, PrintedList;
    var one, sep := PrintedOne(nums, funcs[i]), if i > 0 then " " else "";
    ListHead(nums, funcs[i..]);
    assert funcs[i..][1..] == funcs[i + 1..];
    if i + 1 == |funcs| {
      assert sep + one + "" == sep + one;
    } else {
      var rest := PrintedList(nums, funcs[i + 1..]);
      assert sep + (one + " " + rest) == sep + one + (" " + rest);
    }
  }

  lemma ListHead(nums: Numbers, funcs: seq<FilterFunc>)
    requires funcs != []
    ensures PrintedList(nums, funcs)
            == PrintedOne(nums, funcs[0]) + if |funcs| == 1 then "" else " " + PrintedList(nums, funcs[1..])
  {
    hide PrintedOne;
    var one := PrintedOne(nums, funcs[0]);
    if |funcs| == 1 {
      assert one + "" == one;
    } else {
      assert one + " " + PrintedList(nums, funcs[1..]) == one + (" " + PrintedList(nums, funcs[1..]));
    }
  }

  // ---------------------------------------------------------------- round trip

  predicate Name(s: string) {
    Trimmed(s) && '(' !in s
  }

  predicate Writable(nums: Numbers, f: FilterFunc) {
    Name(f.name) && Trimmed(f.raw) && f.arg == nums.read(f.name, f.raw)
  }

  /** A function that reads back as itself. */
  predicate Faithful(nums: Numbers, f: FilterFunc) {
    Writable(nums, f) && f.raw != "" && Balanced(f.raw, 0)
  }

  lemma {:induction false} ClosedThen(s: string, i: nat, arg: string, depth: nat)
    requires i + |arg| < |s| && s[i..i + |arg|] == arg && Balanced(arg, depth) && s[i + |arg|] == ')'
    ensures CloseParen(s, i, depth) == i + |arg|
    decreases |arg|
  {
    if arg != "" {
      assert s[i] == arg[0] && s[i + 1..i + 1 + |arg[1..]|] == arg[1..];
      ClosedThen(s, i + 1, arg[1..], Deeper(s[i], depth));
    }
  }

  lemma {:induction false} NameThen(s: string, i: nat, name: string)
    requires i + |name| < |s| && s[i..i + |name|] == name && '(' !in name && s[i + |name|] == '('
    ensures OpenParen(s, i) == i + |name|
    decreases |name|
  {
    if name != "" {
      assert s[i] == name[0] && s[i + 1..i + 1 + |name[1..]|] == name[1..];
      NameThen(s, i + 1, name[1..]);
    }
  }

  /** The argument text a function is printed with. */
  function Argument(nums: Numbers, f: FilterFunc): string {
    if f.raw != "" then f.raw else nums.write(f.arg)
  }

  /** A name, an argument and their parentheses standing at a position. */
  predicate Stands(s: string, i: nat, name: string, arg: string) {
    i + |name| + |arg| + 2 <= |s| && s[i..i + |name|] == name && s[i + |name|] == '('
    && s[i + |name| + 1..i + |name| + 1 + |arg|] == arg && s[i + |name| + 1 + |arg|] == ')'
  }

  lemma PrintedStands(nums: Numbers, f: FilterFunc, s: string, i: nat, rest: string)
    requires i <= |s| && s[i..] == PrintedOne(nums, f) + rest
    ensures Stands(s, i, f.name, Argument(nums, f))
    ensures i + |PrintedOne(nums, f)| == i + |f.name| + |Argument(nums, f)| + 2 <= |s|
    ensures s[i + |PrintedOne(nums, f)|..] == rest
  {
    var one, arg := PrintedOne(nums, f), Argument(nums, f);
    assert one == f.name + "(" + arg + ")";
    forall k | 0 <= k < |one| ensures s[i + k] == one[k] { assert s[i..][k] == one[k]; }
    assert s[i..][|one|..] == rest;
  }

  /** A printed function is read first, with the argument it was printed with when that is closed. */
  lemma ReadsFirst(nums: Numbers, s: string, i: nat, name: string, arg: string)
    requires Stands(s, i, name, arg) && Name(name) && Trimmed(arg) && Balanced(arg, 0)
    ensures Functions(nums, s, i)
            == [FilterFunc(name, nums.read(name, arg), arg)] + Functions(nums, s, i + |name| + |arg| + 2)
  {
    hide Balanced, Trim, OpenParen, CloseParen, Functions, Gap;
    StartsAtOnce(s, i, name);
    NameThen(s, i, name);
    ClosedThen(s, i + |name| + 1, arg, 0);
    FunctionsAt(nums, s, i, i, i + |name|, i + |name| + 1 + |arg|);
    TrimmedTrim(name);
    TrimmedTrim(arg);
  }

  lemma StartsAtOnce(s: string, i: nat, name: string)
    requires i + |name| < |s| && s[i..i + |name|] == name && s[i + |name|] == '(' && Trimmed(name)
    ensures Gap(s, i) == i
  {
    assert s[i] == if name == "" then '(' else name[0];
  }

  lemma SpaceSkipped(nums: Numbers, s: string, i: nat)
    requires i < |s| && s[i] == ' '
    ensures Functions(nums, s, i) == Functions(nums, s, i + 1)
  {
    hide OpenParen, CloseParen, Trim;
  }

  /** The first function of a printed list, and where the others stand. */
  lemma HeadReads(nums: Numbers, funcs: seq<FilterFunc>, s: string, i: nat)
    requires i <= |s| && s[i..] == PrintedList(nums, funcs) && funcs != [] && Faithful(nums, funcs[0])
    ensures var next := i + |PrintedOne(nums, funcs[0])|;
            && next <= |s| && Functions(nums, s, i) == [funcs[0]] + Functions(nums, s, next)
            && (|funcs| == 1 ==> next == |s|)
            && (|funcs| > 1 ==> next < |s| && s[next] == ' ' && s[next + 1..] == PrintedList(nums, funcs[1..]))
  {
    hide Functions, PrintedOne, PrintedList, Trimmed, Balanced, Stands;
    var f := funcs[0];
    ListHead(nums, funcs);
    var rest := if |funcs| == 1 then "" else " " + PrintedList(nums, funcs[1..]);
    PrintedStands(nums, f, s, i, rest);
    ReadsFirst(nums, s, i, f.name, f.raw);
    var next := i + |PrintedOne(nums, f)|;
    if |funcs| > 1 { assert s[next..][0] == ' ' && s[next..][1..] == s[next + 1..]; }
  }

  lemma {:induction false} ListReads(nums: Numbers, funcs: seq<FilterFunc>, s: string, i: nat)
    requires i <= |s| && s[i..] == PrintedList(nums, funcs)
    requires forall k :: 0 <= k < |funcs| ==> Faithful(nums, funcs[k])
    ensures Functions(nums, s, i) == funcs
    decreases |funcs|
  {
    hide Functions, PrintedOne, PrintedList, Faithful;
    if funcs == [] {
      ListEmpty(nums);
      NoFunctions(nums, s);
    } else {
      HeadReads(nums, funcs, s, i);
      var next := i + |PrintedOne(nums, funcs[0])|;
      if |funcs| == 1 {
        NoFunctions(nums, s);
      } else {
        SpaceSkipped(nums, s, next);
        ListReads(nums, funcs[1..], s, next + 1);
      }
    }
  }

  lemma ListEmpty(nums: Numbers)
    ensures PrintedList(nums, []) == ""
  {
  }

  lemma {:induction false} ListEnds(nums: Numbers, funcs: seq<FilterFunc>)
    requires funcs != [] && forall i :: 0 <= i < |funcs| ==> Name(funcs[i].name)
    ensures var s := PrintedList(nums, funcs);
            s != "" && Trimmed(s) && s[|s| - 1] == ')'
    decreases |funcs|
  {
    var one := PrintedOne(nums, funcs[0]);
    assert Name(funcs[0].name);
    assert one[|one| - 1] == ')' && one[0] == if funcs[0].name == "" then '(' else funcs[0].name[0];
    if |funcs| > 1 { ListEnds(nums, funcs[1..]); }
  }

  /** Parsing undoes printing for every list of functions with non-empty closed arguments. */
  lemma ParseUndoesFormat(nums: Numbers, funcs: seq<FilterFunc>)
    requires forall i :: 0 <= i < |funcs| ==> Faithful(nums, funcs[i])
    ensures Parsed(nums, Printed(nums, funcs)) == funcs
  {
    hide Functions, PrintedList, Trim, Balanced, Trimmed;
    if funcs == [] {
      TrimmedNone();
    } else {
      forall i | 0 <= i < |funcs| ensures Name(funcs[i].name) { assert Faithful(nums, funcs[i]); }
      ListEnds(nums, funcs);
      TrimmedTrim(PrintedList(nums, funcs));
      ListReads(nums, funcs, PrintedList(nums, funcs), 0);
      assert PrintedList(nums, funcs)[0..] == PrintedList(nums, funcs);
      assert "none"[|"none"| - 1] == 'e';
    }
  }

  lemma TrimmedNone()
    ensures Trim("none") == "none"
  {
    TrimmedTrim("none");
  }

  // ---------------------------------------------------------------- what parsing yields

  /** All arguments closed but for the last. */
  predicate LastMayBeOpen(nums: Numbers, funcs: seq<FilterFunc>) {
    && (forall i :: 0 <= i < |funcs| ==> Writable(nums, funcs[i]))
    && (forall i :: 0 <= i < |funcs| ==>
          Balanced(funcs[i].raw, 0) || (i == |funcs| - 1 && NeverCloses(funcs[i].raw, 0)))
  }

  /** The text never closes the parenthesis in front of it. */
  predicate NeverCloses(s: string, depth: nat)
    decreases |s|
  {
    s != "" ==> !(s[0] == ')' && depth == 0) && NeverCloses(s[1..], Deeper(s[0], depth))
  }

  /** What is taken as an argument is closed, or runs to the end without closing. */
  lemma {:induction false} TakenCloses(s: string, i: nat, depth: nat)
    requires i <= |s|
    ensures var e := CloseParen(s, i, depth);
            if e < |s| then Balanced(s[i..e], depth) else NeverCloses(s[i..e], depth)
    decreases |s| - i
  {
    var e := CloseParen(s, i, depth);
    if i < e {
      TakenCloses(s, i + 1, Deeper(s[i], depth));
      assert s[i..e][1..] == s[i + 1..e] && s[i..e][0] == s[i];
    } else {
      assert s[i..e] == "";
    }
  }

  predicate NoParens(s: string) {
    forall i :: 0 <= i < |s| ==> s[i] != '(' && s[i] != ')'
  }

  /** Text without parentheses in front does not change what closes. */
  lemma {:induction false} FrontWithout(a: string, s: string, depth: nat)
    requires NoParens(a)
    ensures Balanced(a + s, depth) == Balanced(s, depth) && NeverCloses(a + s, depth) == NeverCloses(s, depth)
    decreases |a|
  {
    if a == "" {
      assert a + s == s;
    } else {
      assert (a + s)[1..] == a[1..] + s;
      FrontWithout(a[1..], s, depth);
    }
  }

  lemma {:induction false} BackWithout(s: string, b: string, depth: nat)
    requires NoParens(b)
    ensures Balanced(s + b, depth) == Balanced(s, depth)
    ensures NeverCloses(s + b, depth) == NeverCloses(s, depth)
    decreases |s|
  {
    if s == "" {
      assert s + b == b && b + "" == b;
      FrontWithout(b, "", depth);
    } else if !(s[0] == ')' && depth == 0) {
      assert (s + b)[1..] == s[1..] + b;
      BackWithout(s[1..], b, Deeper(s[0], depth));
    }
  }

  lemma TrimSplits(s: string) returns (a: string, b: string)
    ensures NoParens(a) && NoParens(b) && s == a + Trim(s) + b
  {
    hide NoParens, TrimLeft, TrimRight;
    a := LeftSplits(s);
    b := RightSplits(TrimLeft(s));
  }

  lemma {:induction false} LeftSplits(s: string) returns (a: string)
    ensures NoParens(a) && s == a + TrimLeft(s)
    decreases |s|
  {
    a := "";
    if s != "" && IsSpace(s[0]) {
      var rest := LeftSplits(s[1..]);
      a := [s[0]] + rest;
    }
  }

  lemma {:induction false} RightSplits(s: string) returns (b: string)
    ensures NoParens(b) && s == TrimRight(s) + b
    decreases |s|
  {
    b := "";
    if s != "" && IsSpace(s[|s| - 1]) {
      var rest := RightSplits(s[..|s| - 1]);
      b := rest + [s[|s| - 1]];
    }
  }

  /** Trimming changes nothing about what closes. */
  lemma TrimKeepsClosing(s: string)
    ensures Balanced(Trim(s), 0) == Balanced(s, 0) && NeverCloses(Trim(s), 0) == NeverCloses(s, 0)
  {
    hide Balanced, NeverCloses, Trim;
    var a, b := TrimSplits(s);
    assert s == a + (Trim(s) + b);
    FrontWithout(a, Trim(s) + b, 0);
    BackWithout(Trim(s), b, 0);
  }

  /** What parsing yields: trimmed names without parentheses, trimmed arguments, all closed but for the last. */
  lemma {:induction false} FunctionsShape(nums: Numbers, s: string, i: nat)
    requires i <= |s|
    ensures LastMayBeOpen(nums, Functions(nums, s, i))
    decreases |s| - i
  {
    hide Balanced, NeverCloses, Trim, Name, Gap, OpenParen, CloseParen, Functions;
    var start := Gap(s, i);
    var open := OpenParen(s, start);
    if open < |s| {
      var close := CloseParen(s, open + 1, 0);
      var name, raw := s[start..open], s[open + 1..close];
      FunctionsShape(nums, s, if close < |s| then close + 1 else close);
      TakenCloses(s, open + 1, 0);
      TrimKeepsClosing(raw);
      TrimIsTrimmed(raw);
      NameTaken(s, start);
      NameIsName(name);
      if close == |s| { NoFunctions(nums, s); }
      FunctionsAt(nums, s, i, start, open, close);
      ShapeStep(nums, FilterFunc(Trim(name), nums.read(Trim(name), Trim(raw)), Trim(raw)),
                Functions(nums, s, if close < |s| then close + 1 else close));
    } else {
      NoneAt(nums, s, i);
    }
  }

  lemma {:induction false} NameTaken(s: string, i: nat)
    requires i <= |s|
    ensures '(' !in s[i..OpenParen(s, i)]
    decreases |s| - i
  {
    var e := OpenParen(s, i);
    if i < e {
      NameTaken(s, i + 1);
      assert s[i..e] == [s[i]] + s[i + 1..e];
    }
  }

  lemma TrimIsTrimmed(s: string)
    ensures Trimmed(Trim(s))
  {
    var l := TrimLeft(s);
    var r := TrimRight(l);
    if r != "" { assert r[0] == l[0]; }
  }

  lemma NameIsName(s: string)
    requires '(' !in s
    ensures Name(Trim(s))
  {
    hide Trim;
    TrimIsTrimmed(s);
    var a, b := TrimSplits(s);
    forall i | 0 <= i < |Trim(s)| ensures Trim(s)[i] != '(' { assert s[|a| + i] == Trim(s)[i]; }
  }

  lemma ShapeStep(nums: Numbers, f: FilterFunc, rest: seq<FilterFunc>)
    requires Writable(nums, f) && LastMayBeOpen(nums, rest)
    requires Balanced(f.raw, 0) || (rest == [] && NeverCloses(f.raw, 0))
    ensures LastMayBeOpen(nums, [f] + rest)
  {
    hide Balanced, NeverCloses, Writable;
    var all := [f] + rest;
    forall i | 0 <= i < |all|
      ensures Writable(nums, all[i])
      ensures Balanced(all[i].raw, 0) || (i == |all| - 1 && NeverCloses(all[i].raw, 0))
    {
      if i > 0 { assert all[i] == rest[i - 1]; }
    }
  }

  /** Every argument given and closed. */
  predicate AllFaithful(nums: Numbers, funcs: seq<FilterFunc>) {
    forall i :: 0 <= i < |funcs| ==> Faithful(nums, funcs[i])
  }

  /**
   Formatting what was parsed and parsing again gives the same list exactly when every argument was given
   and closed; an empty argument comes back as its number, an unclosed one with one parenthesis more.
   */
  lemma StableIff(nums: Numbers, s: string)
    requires Sound(nums)
    ensures var funcs := Parsed(nums, s);
            Parsed(nums, Printed(nums, funcs)) == funcs <==> AllFaithful(nums, funcs)
  {
    hide Functions, Trim, Balanced, Trimmed, PrintedList;
    var funcs := Parsed(nums, s);
    FunctionsShape(nums, Trim(s), 0);
    if AllFaithful(nums, funcs) {
      ParseUndoesFormat(nums, funcs);
    } else {
      var k :| 0 <= k < |funcs| && !Faithful(nums, funcs[k]);
      Unstable(nums, funcs, PrintedList(nums, funcs), 0);
      assert PrintedList(nums, funcs)[0..] == PrintedList(nums, funcs);
      ListNames(nums, funcs);
      ListEnds(nums, funcs);
      TrimmedTrim(PrintedList(nums, funcs));
      assert "none"[|"none"| - 1] == 'e';
    }
  }

  lemma ListNames(nums: Numbers, funcs: seq<FilterFunc>)
    requires LastMayBeOpen(nums, funcs)
    ensures forall i :: 0 <= i < |funcs| ==> Name(funcs[i].name)
  {
    forall i | 0 <= i < |funcs| ensures Name(funcs[i].name) { assert Writable(nums, funcs[i]); }
  }

  lemma {:induction false} Unstable(nums: Numbers, funcs: seq<FilterFunc>, s: string, i: nat)
    requires Sound(nums) && LastMayBeOpen(nums, funcs) && !AllFaithful(nums, funcs)
    requires i <= |s| && s[i..] == PrintedList(nums, funcs)
    ensures Functions(nums, s, i) != funcs
    decreases |funcs|
  {
    hide Functions, PrintedOne, PrintedList, Balanced, Trimmed, NeverCloses, Stands;
    var f := funcs[0];
    assert Writable(nums, f);
    ListHead(nums, funcs);
    var rest := if |funcs| == 1 then "" else " " + PrintedList(nums, funcs[1..]);
    PrintedStands(nums, f, s, i, rest);
    if Balanced(f.raw, 0) {
      WrittenIsClosed(nums, f.arg);
      ReadsFirst(nums, s, i, f.name, Argument(nums, f));
      if f.raw != "" {
        assert Faithful(nums, f);
        TailShape(nums, funcs);
        HeadReads(nums, funcs, s, i);
        var next := i + |PrintedOne(nums, f)|;
        SpaceSkipped(nums, s, next);
        Unstable(nums, funcs[1..], s, next + 1);
        assert ([f] + Functions(nums, s, next))[1..] == Functions(nums, s, next);
      }
    } else {
      assert |funcs| == 1 && rest == "";
      OpenIsGiven(f.raw);
      ReadsOpen(nums, s, i, f.name, f.raw);
    }
  }

  lemma OpenIsGiven(s: string)
    requires !Balanced(s, 0)
    ensures s != ""
  {
  }

  lemma WrittenIsClosed(nums: Numbers, x: real)
    requires Sound(nums)
    ensures nums.write(x) != "" && Trimmed(nums.write(x)) && Balanced(nums.write(x), 0)
  {
  }

  lemma TailShape(nums: Numbers, funcs: seq<FilterFunc>)
    requires funcs != [] && LastMayBeOpen(nums, funcs) && Faithful(nums, funcs[0]) && !AllFaithful(nums, funcs)
    ensures |funcs| > 1 && LastMayBeOpen(nums, funcs[1..]) && !AllFaithful(nums, funcs[1..])
  {
    hide Faithful, Balanced, NeverCloses, Writable;
    var k :| 0 <= k < |funcs| && !Faithful(nums, funcs[k]);
    assert funcs[1..][k - 1] == funcs[k];
    forall i | 0 <= i < |funcs[1..]|
      ensures Writable(nums, funcs[1..][i])
      ensures Balanced(funcs[1..][i].raw, 0) || (i == |funcs[1..]| - 1 && NeverCloses(funcs[1..][i].raw, 0))
    {
      assert funcs[1..][i] == funcs[i + 1];
    }
  }

  /** An argument that is never closed swallows the parenthesis printed after it. */
  lemma ReadsOpen(nums: Numbers, s: string, i: nat, name: string, raw: string)
    requires Stands(s, i, name, raw) && |s| == i + |name| + |raw| + 2
    requires Name(name) && Trimmed(raw) && raw != "" && !Balanced(raw, 0) && NeverCloses(raw, 0)
    ensures var r := Functions(nums, s, i); r != [] && |r[0].raw| == |raw| + 1
  {
    hide Trim, Balanced, NeverCloses, OpenParen, CloseParen, Functions, Gap, Trimmed;
    StartsAtOnce(s, i, name);
    NameThen(s, i, name);
    OpenThen(s, i + |name| + 1, raw, 0);
    FunctionsAt(nums, s, i, i, i + |name|, |s|);
    OneMore(raw, s[i + |name| + 1..|s|]);
  }

  lemma OneMore(raw: string, tail: string)
    requires raw != "" && Trimmed(raw) && |tail| == |raw| + 1 && tail[..|raw|] == raw && tail[|raw|] == ')'
    ensures |Trim(tail)| == |raw| + 1
  {
    assert tail[0] == tail[..|raw|][0];
    TrimmedTrim(tail);
  }

  lemma {:induction false} OpenThen(s: string, i: nat, raw: string, depth: nat)
    requires |s| == i + |raw| + 1 && s[i..i + |raw|] == raw && s[i + |raw|] == ')'
    requires NeverCloses(raw, depth) && !Balanced(raw, depth)
    ensures CloseParen(s, i, depth) == |s|
    decreases |raw|
  {
    if raw != "" {
      assert s[i] == raw[0] && s[i + 1..i + 1 + |raw[1..]|] == raw[1..];
      OpenThen(s, i + 1, raw[1..], Deeper(s[i], depth));
    }
  }
}
