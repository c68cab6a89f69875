// router/utils.ts: the route-pattern compiler `compilePath` (a fixed chain of
// string rewrites producing an anchored regular-expression source and the
// ordered parameter names) and the `handleHrefClick` decision.
module RouterUtils {
  import opened Common

  // ---------------------------------------------------------------------
  // Stage 1: drop trailing slashes and an optional final `*`  (/\/*\*?$/ -> '')

  function DropTrailingSlashes(s: string): (r: string)
    ensures |r| <= |s| && r == s[..|r|]
    ensures r == [] || r[|r| - 1] != '/'
    ensures forall i :: |r| <= i < |s| ==> s[i] == '/'
  {
    if |s| > 0 && s[|s| - 1] == '/' then DropTrailingSlashes(s[..|s| - 1]) else s
  }

  // The leftmost match of the trailing-slash pattern is the final `*` (if any)
  // together with the run of slashes before it.
  function StripTrailing(path: string): string
  {
    if EndsWith(path, "*") then DropTrailingSlashes(path[..|path| - 1]) else DropTrailingSlashes(path)
  }

  // Stage 2: collapse the leading run of slashes into one  (/^\/*/ -> '/')

  function DropLeadingSlashes(s: string): (r: string)
    ensures |r| <= |s| && r == s[|s| - |r|..]
    ensures r == [] || r[0] != '/'
    ensures forall i :: 0 <= i < |s| - |r| ==> s[i] == '/'
  {
    if |s| > 0 && s[0] == '/' then DropLeadingSlashes(s[1..]) else s
  }

  function Normalize(path: string): (r: string)
    ensures |r| >= 1 && r[0] == '/'
    ensures |r| == 1 || r[1] != '/'
  {
    "/" + DropLeadingSlashes(StripTrailing(path))
  }

  // Stage 3: escape the regular-expression metacharacters  (/[\\.*+^$?{}|()[\]]/g -> '\\$&')

  predicate IsSpecial(c: char)
  {
    c == '\\' || c == '.' || c == '*' || c == '+' || c == '^' || c == '$' || c == '?' || c == '{'
    || c == '}' || c == '|' || c == '(' || c == ')' || c == '[' || c == ']'
  }

  function Escape(s: string): string
  {
    if s == [] then []
    else (if IsSpecial(s[0]) then ['\\', s[0]] else [s[0]]) + Escape(s[1..])
  }

  /** Text made of plain characters and backslash-escaped metacharacters only. */
  predicate EscapedForm(e: string)
    decreases |e|
  {
    e == []
    || (e[0] == '\\' && |e| >= 2 && IsSpecial(e[1]) && EscapedForm(e[2..]))
    || (!IsSpecial(e[0]) && EscapedForm(e[1..]))
  }

  /** Removes the escaping backslashes again. */
  function Unescape(e: string): string
    decreases |e|
  {
    if e == [] then []
    else if e[0] == '\\' && |e| >= 2 then [e[1]] + Unescape(e[2..])
    else [e[0]] + Unescape(e[1..])
  }

  lemma {:induction false} EscapeShape(s: string)
    ensures EscapedForm(Escape(s))
    ensures Unescape(Escape(s)) == s
  {
    if s != [] {
      EscapeShape(s[1..]);
      var t := Escape(s[1..]);
      if IsSpecial(s[0]) {
        assert Escape(s) == ['\\', s[0]] + t;
        assert (['\\', s[0]] + t)[2..] == t;
      } else {
        assert Escape(s) == [s[0]] + t;
        assert ([s[0]] + t)[1..] == t;
      }
    }
  }

  // Stage 4: each `/:name` becomes a capture group; names collected left to right

  predicate IsWordChar(c: char)
  {
    'a' <= c <= 'z' || 'A' <= c <= 'Z' || '0' <= c <= '9' || c == '_'
  }

  /** Length of the longest prefix of word characters (the greedy `\w+`). */
  function WordRun(s: string): (n: nat)
    ensures n <= |s|
    ensures forall i :: 0 <= i < n ==> IsWordChar(s[i])
    ensures n == |s| || !IsWordChar(s[n])
  {
    if s != [] && IsWordChar(s[0]) then 1 + WordRun(s[1..]) else 0
  }

  predicate IsWord(s: string)
  {
    |s| >= 1 && forall j :: 0 <= j < |s| ==> IsWordChar(s[j])
  }

  const ParamGroup: string := "/([^\\/]+)"

  datatype Rewritten = Rewritten(text: string, names: seq<string>)

  predicate ParamAt(e: string)
  {
    |e| >= 3 && e[0] == '/' && e[1] == ':' && IsWordChar(e[2])
  }

  /** The global replace of `/\/:(\w+)/g`, scanning left to right. */
  function RewriteParams(e: string): (r: Rewritten)
    decreases |e|
  {
    if ParamAt(e) then
      var n := WordRun(e[2..]);
      var rest := RewriteParams(e[2 + n..]);
      Rewritten(ParamGroup + rest.text, [e[2..2 + n]] + rest.names)
    else if e == [] then Rewritten([], [])
    else
      var rest := RewriteParams(e[1..]);
      Rewritten([e[0]] + rest.text, rest.names)
  }

  lemma {:induction false} NoColonNoNames(e: string)
    requires ':' !in e
    ensures RewriteParams(e) == Rewritten(e, [])
    decreases |e|
  {
    if e != [] {
      assert |e| >= 2 ==> e[1] in e;
      NoColonNoNames(e[1..]);
      assert [e[0]] + e[1..] == e;
    }
  }

  /** A word run stops where a non-word character follows. */
  lemma {:induction false} WordRunConcat(s: string, t: string)
    requires t == [] || !IsWordChar(t[0])
    ensures WordRun(s + t) == WordRun(s)
    decreases |s|
  {
    if s == [] {
      assert s + t == t;
    } else {
      assert (s + t)[0] == s[0];
      assert (s + t)[1..] == s[1..] + t;
      WordRunConcat(s[1..], t);
    }
  }

  /**
   * The rewrite works piece by piece: split before a `/`, the two halves
   * are rewritten on their own and their names follow each other, in order.
   */
  lemma {:induction false} RewriteConcat(a: string, b: string)
    requires b == [] || b[0] == '/'
    ensures RewriteParams(a + b).text == RewriteParams(a).text + RewriteParams(b).text
    ensures RewriteParams(a + b).names == RewriteParams(a).names + RewriteParams(b).names
    decreases |a|
  {
    if a == [] {
      assert a + b == b;
    } else if ParamAt(a) {
      var n := WordRun(a[2..]);
      RewriteConcat(a[2 + n..], b);
      ParamConcat(a, b, n);
    } else {
      RewriteConcat(a[1..], b);
      PlainConcat(a, b);
    }
  }

  /** The parameter case of `RewriteConcat`, given the rest. */
  lemma ParamConcat(a: string, b: string, n: nat)
    requires b == [] || b[0] == '/'
    requires ParamAt(a) && n == WordRun(a[2..])
    requires RewriteParams(a[2 + n..] + b).text == RewriteParams(a[2 + n..]).text + RewriteParams(b).text
    requires RewriteParams(a[2 + n..] + b).names == RewriteParams(a[2 + n..]).names + RewriteParams(b).names
    ensures RewriteParams(a + b).text == RewriteParams(a).text + RewriteParams(b).text
    ensures RewriteParams(a + b).names == RewriteParams(a).names + RewriteParams(b).names
  {
    ParamPieceStep(a, b, n);
    Assoc(ParamGroup, RewriteParams(a[2 + n..]).text, RewriteParams(b).text);
    Assoc([a[2..2 + n]], RewriteParams(a[2 + n..]).names, RewriteParams(b).names);
  }

  /** The plain-character case of `RewriteConcat`, given the rest. */
  lemma PlainConcat(a: string, b: string)
    requires b == [] || b[0] == '/'
    requires a != [] && !ParamAt(a)
    requires RewriteParams(a[1..] + b).text == RewriteParams(a[1..]).text + RewriteParams(b).text
    requires RewriteParams(a[1..] + b).names == RewriteParams(a[1..]).names + RewriteParams(b).names
    ensures RewriteParams(a + b).text == RewriteParams(a).text + RewriteParams(b).text
    ensures RewriteParams(a + b).names == RewriteParams(a).names + RewriteParams(b).names
  {
    PlainCharStep(a, b);
    RewriteOtherStep(a);
    Assoc([a[0]], RewriteParams(a[1..]).text, RewriteParams(b).text);
  }

  lemma Assoc<T>(u: seq<T>, x: seq<T>, y: seq<T>)
    ensures u + (x + y) == (u + x) + y
  {
  }

  /** A parameter at the front of `a` is read the same way in `a + b`. */
  lemma ParamPieceStep(a: string, b: string, n: nat)
    requires b == [] || b[0] == '/'
    requires ParamAt(a) && n == WordRun(a[2..])
    ensures RewriteParams(a + b).text == ParamGroup + RewriteParams(a[2 + n..] + b).text
    ensures RewriteParams(a + b).names == [a[2..2 + n]] + RewriteParams(a[2 + n..] + b).names
    ensures RewriteParams(a).text == ParamGroup + RewriteParams(a[2 + n..]).text
    ensures RewriteParams(a).names == [a[2..2 + n]] + RewriteParams(a[2 + n..]).names
  {
    var e := a + b;
    assert ParamAt(e);
    assert e[2..] == a[2..] + b;
    WordRunConcat(a[2..], b);
    assert e[2..2 + n] == a[2..2 + n];
    assert e[2 + n..] == a[2 + n..] + b;
  }

  /** A plain first character of `a` is copied the same way in `a + b`. */
  lemma PlainCharStep(a: string, b: string)
    requires b == [] || b[0] == '/'
    requires a != [] && !ParamAt(a)
    ensures RewriteParams(a + b).text == [a[0]] + RewriteParams(a[1..] + b).text
    ensures RewriteParams(a + b).names == RewriteParams(a[1..] + b).names
  {
    var e := a + b;
    if |a| >= 3 {
      assert e[0] == a[0] && e[1] == a[1] && e[2] == a[2];
    } else if |a| == 2 && b != [] {
      assert e[2] == '/';
    } else if |a| == 1 && b != [] {
      assert e[1] == '/';
    } else {
      assert e == a;
    }
    assert !ParamAt(e);
    assert e[0] == a[0];
    assert e[1..] == a[1..] + b;
    RewriteOtherStep(e);
  }

  /** One `/:name` piece becomes one capture group and contributes its name. */
  lemma ParamPiece(name: string, rest: string)
    requires IsWord(name)
    requires rest == [] || !IsWordChar(rest[0])
    ensures RewriteParams("/:" + name + rest).text == ParamGroup + RewriteParams(rest).text
    ensures RewriteParams("/:" + name + rest).names == [name] + RewriteParams(rest).names
  {
    var e := "/:" + name + rest;
    assert ParamAt(e);
    assert e[2..] == name + rest;
    WordRunConcat(name, []);
    assert name + [] == name;
    assert WordRun(name) == |name|;
    WordRunConcat(name, rest);
    assert e[2..2 + |name|] == name;
    assert e[2 + |name|..] == rest;
  }

  /** Every collected name is a non-empty run of word characters. */
  predicate AllWords(names: seq<string>)
  {
    forall i :: 0 <= i < |names| ==> IsWord(names[i])
  }

  lemma {:induction false} RewriteNamesAreWords(e: string)
    ensures AllWords(RewriteParams(e).names)
    decreases |e|
  {
    if ParamAt(e) {
      var n := WordRun(e[2..]);
      RewriteNamesAreWords(e[2 + n..]);
      var name := e[2..2 + n];
      assert forall j :: 0 <= j < n ==> name[j] == e[2..][j];
    } else if e != [] {
      RewriteNamesAreWords(e[1..]);
    }
  }

  // ---------------------------------------------------------------------
  // Counting the capturing groups of a regular-expression source

  /** The rest of the text after the `]` closing a character class. */
  function AfterClass(s: string): (r: string)
    ensures |r| <= |s|
    decreases |s|
  {
    if s == [] then []
    else if s[0] == '\\' then (if |s| >= 2 then AfterClass(s[2..]) else [])
    else if s[0] == ']' then s[1..]
    else AfterClass(s[1..])
  }

  /**
   * Number of capturing groups: an unescaped `(` outside a character class
   * that does not start `(?`.
   */
  function Groups(s: string): nat
    decreases |s|
  {
    if s == [] then 0
    else if s[0] == '\\' then (if |s| >= 2 then Groups(s[2..]) else 0)
    else if s[0] == '[' then Groups(AfterClass(s[1..]))
    else if s[0] == '(' then (if |s| >= 2 && s[1] == '?' then 0 else 1) + Groups(s[1..])
    else Groups(s[1..])
  }

  lemma ParamGroupCounts(x: string)
    ensures Groups(ParamGroup + x) == 1 + Groups(x)
  {
    var s := ParamGroup + x;
    assert s[0] == '/' && s[1] == '(' && s[2] == '[' && s[3] == '^' && s[4] == '\\';
    assert s[6] == ']' && s[7] == '+' && s[8] == ')' && s[9..] == x;
    assert AfterClass(s[6..]) == s[7..];
    assert AfterClass(s[4..]) == AfterClass(s[6..]);
    assert AfterClass(s[3..]) == AfterClass(s[4..]);
    assert Groups(s[8..]) == Groups(s[9..]);
    assert Groups(s[7..]) == Groups(s[8..]);
    assert Groups(s[2..]) == Groups(s[7..]);
    assert Groups(s[1..]) == 1 + Groups(s[2..]);
  }

  lemma PlainCharCounts(c: char, x: string)
    requires !IsSpecial(c)
    ensures Groups([c] + x) == Groups(x)
  {
    assert ([c] + x)[1..] == x;
  }

  lemma CaretCounts(a: string, b: string)
    ensures Groups("^" + a + b) == Groups(a + b)
  {
    assert ("^" + a + b)[1..] == a + b;
  }

  lemma Regroup(p: string, a: string, b: string)
    ensures (p + a) + b == p + (a + b)
  {
  }

  lemma EscapePairCounts(c: char, x: string)
    ensures Groups(['\\', c] + x) == Groups(x)
  {
    assert (['\\', c] + x)[2..] == x;
  }

  lemma {:induction false} EscapedFormDrop(e: string, k: nat)
    requires EscapedForm(e)
    requires k <= |e|
    requires forall i :: 0 <= i < k ==> !IsSpecial(e[i])
    ensures EscapedForm(e[k..])
  {
    if k > 0 {
      assert e[0] != '\\';
      EscapedFormDrop(e[1..], k - 1);
      assert e[1..][k - 1..] == e[k..];
    }
  }

  /** In the matched `/:name` nothing is a metacharacter. */
  lemma ParamPrefixPlain(e: string)
    requires ParamAt(e)
    ensures forall i :: 0 <= i < 2 + WordRun(e[2..]) ==> !IsSpecial(e[i])
  {
    var n := WordRun(e[2..]);
    forall i | 0 <= i < 2 + n ensures !IsSpecial(e[i]) {
      if i >= 2 { assert e[i] == e[2..][i - 2]; }
    }
  }

  lemma RewriteParamStep(e: string)
    requires ParamAt(e)
    ensures RewriteParams(e).text == ParamGroup + RewriteParams(e[2 + WordRun(e[2..])..]).text
    ensures |RewriteParams(e).names| == 1 + |RewriteParams(e[2 + WordRun(e[2..])..]).names|
  {
    var n := WordRun(e[2..]);
    var rest := RewriteParams(e[2 + n..]);
    assert RewriteParams(e) == Rewritten(ParamGroup + rest.text, [e[2..2 + n]] + rest.names);
  }

  lemma RewriteOtherStep(e: string)
    requires e != [] && !ParamAt(e)
    ensures RewriteParams(e).text == [e[0]] + RewriteParams(e[1..]).text
    ensures RewriteParams(e).names == RewriteParams(e[1..]).names
  {
  }

  lemma Cons2<T>(a: T, b: T, x: seq<T>)
    ensures [a] + ([b] + x) == [a, b] + x
  {
  }

  lemma RewriteEscapeStep(e: string)
    requires EscapedForm(e) && e != [] && e[0] == '\\'
    ensures |e| >= 2 && EscapedForm(e[2..])
    ensures RewriteParams(e).text == ['\\', e[1]] + RewriteParams(e[2..]).text
    ensures RewriteParams(e).names == RewriteParams(e[2..]).names
  {
    assert IsSpecial('\\');
    assert |e| >= 2 && IsSpecial(e[1]) && EscapedForm(e[2..]);
    RewriteEscapedPair(e);
  }

  /** A backslash and a metacharacter are copied as they are. */
  lemma RewriteEscapedPair(e: string)
    requires |e| >= 2 && e[0] == '\\' && IsSpecial(e[1])
    ensures RewriteParams(e).text == ['\\', e[1]] + RewriteParams(e[2..]).text
    ensures RewriteParams(e).names == RewriteParams(e[2..]).names
  {
    assert !IsSpecial('/');
    var e1 := e[1..];
    assert e1[0] == e[1] && e1[1..] == e[2..];
    RewriteOtherStep(e);
    RewriteOtherStep(e1);
    Cons2(e[0], e1[0], RewriteParams(e[2..]).text);
  }

  lemma RewritePlainStep(e: string)
    requires EscapedForm(e) && e != [] && e[0] != '\\' && !ParamAt(e)
    ensures !IsSpecial(e[0]) && EscapedForm(e[1..])
    ensures RewriteParams(e).text == [e[0]] + RewriteParams(e[1..]).text
    ensures RewriteParams(e).names == RewriteParams(e[1..]).names
  {
    RewriteOtherStep(e);
  }

  /** Rewriting escaped text creates exactly one capturing group per collected name. */
  lemma {:induction false} RewriteGroups(e: string, tail: string)
    requires EscapedForm(e)
    ensures Groups(RewriteParams(e).text + tail) == |RewriteParams(e).names| + Groups(tail)
    decreases |e|
  {
    if ParamAt(e) {
      var k := 2 + WordRun(e[2..]);
      ParamPrefixPlain(e);
      EscapedFormDrop(e, k);
      var rest := RewriteParams(e[k..]);
      RewriteGroups(e[k..], tail);
      ParamGroupCounts(rest.text + tail);
      RewriteParamStep(e);
      Regroup(ParamGroup, rest.text, tail);
    } else if e != [] {
      if e[0] == '\\' {
        RewriteEscapeStep(e);
        var rest := RewriteParams(e[2..]);
        RewriteGroups(e[2..], tail);
        EscapePairCounts(e[1], rest.text + tail);
        Regroup(['\\', e[1]], rest.text, tail);
      } else {
        RewritePlainStep(e);
        var rest := RewriteParams(e[1..]);
        RewriteGroups(e[1..], tail);
        PlainCharCounts(e[0], rest.text + tail);
        Regroup([e[0]], rest.text, tail);
      }
    } else {
      assert [] + tail == tail;
    }
  }

  // ---------------------------------------------------------------------
  // compilePath

  const AnyRest: string := "(.*)$"
  const SplatRest: string := "(?:\\/(.+)|\\/*)$"
  const TrailingSlashes: string := "\\/*$"
  const SegmentBoundary: string := "(?:(?=\\/|$))"

  lemma PlainStep(s: string, k: nat)
    requires k < |s| && s[k] != '\\' && s[k] != '[' && s[k] != '('
    ensures Groups(s[k..]) == Groups(s[k + 1..])
  {
    assert s[k..][1..] == s[k + 1..];
  }

  lemma EscStep(s: string, k: nat)
    requires k + 1 < |s| && s[k] == '\\'
    ensures Groups(s[k..]) == Groups(s[k + 2..])
  {
    assert s[k..][2..] == s[k + 2..];
  }

  lemma OpenStep(s: string, k: nat)
    requires k + 1 < |s| && s[k] == '('
    ensures Groups(s[k..]) == (if s[k + 1] == '?' then 0 else 1) + Groups(s[k + 1..])
  {
    assert s[k..][1..] == s[k + 1..];
  }

  predicate PlainRun(s: string, k: nat, n: nat)
    requires k + n <= |s|
  {
    forall i :: k <= i < k + n ==> s[i] != '\\' && s[i] != '[' && s[i] != '('
  }

  /** A run of ordinary characters adds no group. */
  lemma {:induction false} PlainSteps(s: string, k: nat, n: nat)
    requires k + n <= |s| && PlainRun(s, k, n)
    ensures Groups(s[k..]) == Groups(s[k + n..])
    decreases n
  {
    if n > 0 {
      PlainStep(s, k);
      PlainSteps(s, k + 1, n - 1);
    }
  }

  lemma AnyRestGroups(s: string)
    requires |s| == 5 && s[0] == '(' && s[1] == '.' && s[2] == '*' && s[3] == ')' && s[4] == '$'
    ensures Groups(s) == 1
  {
    OpenStep(s, 0);
    PlainSteps(s, 1, 4);
    assert s[0..] == s && s[5..] == [];
  }

  lemma SplatRestGroups(s: string)
    requires |s| == 15 && s[0] == '(' && s[1] == '?' && s[2] == ':' && s[3] == '\\'
    requires s[5] == '(' && s[6] == '.' && s[7] == '+' && s[8] == ')' && s[9] == '|'
    requires s[10] == '\\' && s[12] == '*' && s[13] == ')' && s[14] == '$'
    ensures Groups(s) == 1
  {
    SplatRestTail(s);
    OpenStep(s, 0);
    PlainSteps(s, 1, 2);
    EscStep(s, 3);
    assert s[0..] == s;
  }

  lemma SplatRestTail(s: string)
    requires |s| == 15 && s[5] == '(' && s[6] == '.' && s[7] == '+' && s[8] == ')' && s[9] == '|'
    requires s[10] == '\\' && s[12] == '*' && s[13] == ')' && s[14] == '$'
    ensures Groups(s[5..]) == 1
  {
    OpenStep(s, 5);
    PlainSteps(s, 6, 4);
    EscStep(s, 10);
    PlainSteps(s, 12, 3);
    assert s[15..] == [];
  }

  lemma TrailingSlashesGroups(s: string)
    requires |s| == 4 && s[0] == '\\' && s[2] == '*' && s[3] == '$'
    ensures Groups(s) == 0
  {
    EscStep(s, 0);
    PlainSteps(s, 2, 2);
    assert s[0..] == s && s[4..] == [];
  }

  lemma SegmentBoundaryGroups(s: string)
    requires |s| == 12 && s[0] == '(' && s[1] == '?' && s[2] == ':' && s[3] == '(' && s[4] == '?'
    requires s[5] == '=' && s[6] == '\\' && s[8] == '|' && s[9] == '$' && s[10] == ')' && s[11] == ')'
    ensures Groups(s) == 0
  {
    SegmentBoundaryTail(s);
    OpenStep(s, 0);
    PlainSteps(s, 1, 2);
    OpenStep(s, 3);
    assert s[0..] == s;
  }

  lemma SegmentBoundaryTail(s: string)
    requires |s| == 12 && s[4] == '?'
    requires s[5] == '=' && s[6] == '\\' && s[8] == '|' && s[9] == '$' && s[10] == ')' && s[11] == ')'
    ensures Groups(s[4..]) == 0
  {
    PlainSteps(s, 4, 2);
    EscStep(s, 6);
    PlainSteps(s, 8, 4);
    assert s[12..] == [];
  }

  /** What is appended after the rewritten pattern. */
  function Suffix(path: string, end: bool): (s: string)
    ensures Groups(s) == if EndsWith(path, "*") then 1 else 0
  {
    if EndsWith(path, "*") then
      if path == "*" || path == "/*" then AnyRestGroups(AnyRest); AnyRest else SplatRestGroups(SplatRest); SplatRest
    else if end then TrailingSlashesGroups(TrailingSlashes); TrailingSlashes
    else if path != "" && path != "/" then SegmentBoundaryGroups(SegmentBoundary); SegmentBoundary
    else ""
  }

  datatype CompiledPath = CompiledPath(source: string, ignoreCase: bool, paramNames: seq<string>)

  /** Every name other than "*" is a `\w+` word. */
  predicate WordNames(all: seq<string>)
  {
    forall i :: 0 <= i < |all| && all[i] != "*" ==> IsWord(all[i])
  }

  predicate LastIsStar(names: seq<string>)
  {
    |names| >= 1 && names[|names| - 1] == "*"
  }

  lemma StarIsLast(names: seq<string>, star: bool, all: seq<string>)
    requires all == names + (if star then ["*"] else [])
    requires AllWords(names)
    ensures star <==> LastIsStar(all)
    ensures WordNames(all)
  {
    forall i | 0 <= i < |names| ensures names[i] != "*" {
      assert IsWordChar(names[i][0]);
    }
    forall i | 0 <= i < |all| && all[i] != "*" ensures IsWord(all[i]) {
      assert i < |names|;
      assert all[i] == names[i];
    }
  }

  lemma CollectedNames(e: string, star: bool, all: seq<string>)
    requires all == RewriteParams(e).names + (if star then ["*"] else [])
    ensures star <==> LastIsStar(all)
    ensures WordNames(all)
  {
    RewriteNamesAreWords(e);
    StarIsLast(RewriteParams(e).names, star, all);
  }

  lemma SourceEndsWith(t: string, path: string, end: bool)
    ensures var src := "^" + t + Suffix(path, end);
      && (EndsWith(path, "*") && (path == "*" || path == "/*") ==> EndsWith(src, AnyRest))
      && (EndsWith(path, "*") && path != "*" && path != "/*" ==> EndsWith(src, SplatRest))
      && (!EndsWith(path, "*") && end ==> EndsWith(src, TrailingSlashes))
      && (!EndsWith(path, "*") && !end && path != "" && path != "/" ==> EndsWith(src, SegmentBoundary))
  {
    var sfx := Suffix(path, end);
    var src := "^" + t + sfx;
    assert src[|src| - |sfx|..] == sfx;
  }

  /**
   * `compilePath(path, caseSensitive = false, end = true)`. An absent flag
   * takes its default. The source is `^`, then the normalised, escaped and
   * parameter-rewritten pattern, then the suffix.
   */
  function CompilePath(path: string, caseSensitive: Option<bool>, end: Option<bool>): (c: CompiledPath)
    ensures c.ignoreCase <==> !caseSensitive.GetOr(false)
    // a trailing `*` gives one last name "*"; every other name is a `\w+` word
    ensures EndsWith(path, "*") <==> LastIsStar(c.paramNames)
    ensures WordNames(c.paramNames)
  {
    var e := Escape(Normalize(path));
    var rw := RewriteParams(e);
    var names := rw.names + if EndsWith(path, "*") then ["*"] else [];
    CollectedNames(e, EndsWith(path, "*"), names);
    CompiledPath("^" + rw.text + Suffix(path, end.GetOr(true)), !caseSensitive.GetOr(false), names)
  }

  /** The source has exactly as many capturing groups as there are parameter names. */
  lemma CompilePathGroups(path: string, caseSensitive: Option<bool>, end: Option<bool>)
    ensures var c := CompilePath(path, caseSensitive, end);
      Groups(c.source) == |c.paramNames|
  {
    var c := CompilePath(path, caseSensitive, end);
    var e := Escape(Normalize(path));
    var sfx := Suffix(path, end.GetOr(true));
    EscapeShape(Normalize(path));
    RewriteGroups(e, sfx);
    CaretCounts(RewriteParams(e).text, sfx);
  }

  /** The suffix table: what ends the source for each kind of pattern. */
  lemma CompilePathSuffix(path: string, caseSensitive: Option<bool>, end: Option<bool>)
    ensures var c := CompilePath(path, caseSensitive, end);
      && (EndsWith(path, "*") && (path == "*" || path == "/*") ==> EndsWith(c.source, AnyRest))
      && (EndsWith(path, "*") && path != "*" && path != "/*" ==> EndsWith(c.source, SplatRest))
      && (!EndsWith(path, "*") && end.GetOr(true) ==> EndsWith(c.source, TrailingSlashes))
      && (!EndsWith(path, "*") && !end.GetOr(true) && path != "" && path != "/" ==>
            EndsWith(c.source, SegmentBoundary))
      && (!EndsWith(path, "*") && !end.GetOr(true) && (path == "" || path == "/") ==>
            c.source == "^" + RewriteParams(Escape(Normalize(path))).text)
  {
    SourceEndsWith(RewriteParams(Escape(Normalize(path))).text, path, end.GetOr(true));
  }

  // ---------------------------------------------------------------------
  // handleHrefClick

  /** A call `router.navigate(path, { trigger: true })`; the path may be null. */
  datatype NavigateCall = NavigateCall(path: Option<string>, trigger: bool)

  datatype ClickOutcome = ClickOutcome(defaultPrevented: bool, navigation: Option<NavigateCall>)

  /**
   * `handleHrefClick(router)(evt, href)`: `button` is the mouse button (absent
   * counts as 0), `hrefAttribute` the clicked element's `href` attribute.
   */
  function HandleHrefClick(hasRouter: bool, button: int, href: Option<string>, hrefAttribute: Option<string>): (r: ClickOutcome)
    ensures button == 1 ==> !r.defaultPrevented && r.navigation.None?
    ensures button != 1 ==> r.defaultPrevented && (r.navigation.Some? <==> hasRouter)
    ensures r.navigation.Some? ==>
      r.navigation.value.trigger &&
      r.navigation.value.path == (if href.Some? then href else hrefAttribute)
  {
    if button != 0 && button == 1 then ClickOutcome(false, None)
    else ClickOutcome(true, if hasRouter then Some(NavigateCall(if href.Some? then href else hrefAttribute, true)) else None)
  }
}
