// pkg/util/helpers.go: the comma-separated lists in the configuration.

module Helpers {

  // unicode.IsSpace
  predicate IsSpace(c: char) {
    || '\t' <= c <= '\r'
    || c == ' ' || c == '\U{85}' || c == '\U{A0}' || c == '\U{1680}'
    || '\U{2000}' <= c <= '\U{200A}'
    || c == '\U{2028}' || c == '\U{2029}' || c == '\U{202F}' || c == '\U{205F}' || c == '\U{3000}'
  }

  // The 25 characters with the Unicode property White_Space.
  const WHITE_SPACE: set<char> := {
    '\U{9}', '\U{A}', '\U{B}', '\U{C}', '\U{D}', '\U{20}', '\U{85}', '\U{A0}', '\U{1680}', '\U{2000}', '\U{2001}',
    '\U{2002}', '\U{2003}', '\U{2004}', '\U{2005}', '\U{2006}', '\U{2007}', '\U{2008}', '\U{2009}', '\U{200A}',
    '\U{2028}', '\U{2029}', '\U{202F}', '\U{205F}', '\U{3000}'
  }

  lemma SpacesExactly(c: char)
    ensures IsSpace(c) <==> c in WHITE_SPACE
  {
    assert '\U{2000}' <= c <= '\U{200A}' ==>
        c as int in {0x2000, 0x2001, 0x2002, 0x2003, 0x2004, 0x2005, 0x2006, 0x2007, 0x2008, 0x2009, 0x200A};
  }

  predicate SplitComma(c: char) { c == ',' }

  ghost predicate AllSpace(s: string) { forall i :: 0 <= i < |s| ==> IsSpace(s[i]) }

  ghost predicate NoComma(s: string) { forall i :: 0 <= i < |s| ==> !SplitComma(s[i]) }

  function TrimLeft(s: string): string {
    if s != "" && IsSpace(s[0]) then TrimLeft(s[1..]) else s
  }

  function TrimRight(s: string): string {
    if s != "" && IsSpace(s[|s| - 1]) then TrimRight(s[..|s| - 1]) else s
  }

  function TrimSpace(s: string): string { TrimRight(TrimLeft(s)) }

  function CommaAt(s: string): (k: nat)
    ensures k <= |s| && NoComma(s[..k]) && (k < |s| ==> SplitComma(s[k]))
  {
    if s == "" || SplitComma(s[0]) then 0 else 1 + CommaAt(s[1..])
  }

  // strings.FieldsFunc with SplitComma: the longest stretches without a comma.
  function Fields(s: string): seq<string> {
    if s == "" then []
    else if SplitComma(s[0]) then Fields(s[1..])
    else
      var k := CommaAt(s);
      [s[..k]] + Fields(s[k..])
  }

  function Clean(ss: seq<string>): seq<string> {
    if ss == [] then []
    else if TrimSpace(ss[0]) != "" then [TrimSpace(ss[0])] + Clean(ss[1..])
    else Clean(ss[1..])
  }

  function Parse(s: string): seq<string> { Clean(Fields(s)) }

  // strings.Join(names, ",")
  function Join(names: seq<string>): string {
    if |names| == 0 then ""
    else if |names| == 1 then names[0]
    else names[0] + "," + Join(names[1..])
  }

  method DeleteEmptyAndTrim(s: seq<string>) returns (r: seq<string>)
    ensures r == Clean(s)
    ensures |s| == 1 ==> r == if TrimSpace(s[0]) == "" then [] else [TrimSpace(s[0])]
  {
    r := [];
    for i := 0 to |s|
      invariant r + Clean(s[i..]) == Clean(s)
    {
      assert s[i..][1..] == s[i + 1..];
      var str := TrimSpace(s[i]);
      if str != "" { r := r + [str]; }
    }
    assert s[|s|..] == [];
  }

  // ---- what trimming does ----

  ghost predicate Trimmed(s: string) { s == "" || (!IsSpace(s[0]) && !IsSpace(s[|s| - 1])) }

  // A name the list format can carry.
  ghost predicate Tidy(s: string) { s != "" && NoComma(s) && Trimmed(s) }

  // Trimming takes spaces off both ends, as many as there are, and nothing else.
  lemma {:induction false} TrimSpaceCuts(s: string)
    ensures Trimmed(TrimSpace(s))
    ensures exists front, back :: AllSpace(front) && AllSpace(back) && s == front + TrimSpace(s) + back
  {
    var front := TrimLeftCuts(s);
    var back := TrimRightCuts(TrimLeft(s));
    assert s == front + TrimSpace(s) + back;
  }

  lemma {:induction false} TrimLeftCuts(s: string) returns (front: string)
    ensures AllSpace(front) && s == front + TrimLeft(s)
    ensures TrimLeft(s) == "" || !IsSpace(TrimLeft(s)[0])
  {
    front := "";
    if s != "" && IsSpace(s[0]) {
      var more := TrimLeftCuts(s[1..]);
      front := [s[0]] + more;
    }
  }

  lemma {:induction false} TrimRightCuts(s: string) returns (back: string)
    ensures AllSpace(back) && s == TrimRight(s) + back
    ensures TrimRight(s) == "" || !IsSpace(TrimRight(s)[|TrimRight(s)| - 1])
  {
    back := "";
    if s != "" && IsSpace(s[|s| - 1]) {
      var more := TrimRightCuts(s[..|s| - 1]);
      back := more + [s[|s| - 1]];
    }
  }

  lemma TrimmedStays(s: string)
    requires Trimmed(s)
    ensures TrimSpace(s) == s
  {
  }

  lemma TrimKeepsNoComma(s: string)
    requires NoComma(s)
    ensures NoComma(TrimSpace(s))
  {
    TrimSpaceCuts(s);
    var front, back :| AllSpace(front) && AllSpace(back) && s == front + TrimSpace(s) + back;
    var t := TrimSpace(s);
    forall i | 0 <= i < |t| ensures !SplitComma(t[i]) { assert t[i] == s[|front| + i]; }
  }

  // ---- what parsing does ----

  // A comma separates, wherever it stands ...
  lemma ParseDistributes(a: string, b: string)
    ensures Parse(a + "," + b) == Parse(a) + Parse(b)
  {
    FieldsDistribute(a, b);
    CleanDistributes(Fields(a), Fields(b));
  }

  // ... and text without one is a single name, or none if it is all spaces.
  lemma ParseOne(s: string)
    requires NoComma(s)
    ensures Parse(s) == if TrimSpace(s) == "" then [] else [TrimSpace(s)]
  {
    if s != "" {
      assert CommaAt(s) == |s| && s[..|s|] == s && s[|s|..] == "";
      assert Fields(s[|s|..]) == [] && Fields(s) == [s];
      assert Clean([s][1..]) == [];
    }
  }

  lemma {:induction false} FieldsDistribute(a: string, b: string)
    ensures Fields(a + "," + b) == Fields(a) + Fields(b)
    decreases |a|
  {
    var all := a + "," + b;
    if a == "" {
      assert all[1..] == b;
    } else if SplitComma(a[0]) {
      assert all[1..] == a[1..] + "," + b;
      FieldsDistribute(a[1..], b);
    } else {
      var k := CommaAt(a);
      SameComma(a, b);
      assert all[..k] == a[..k] && all[k..] == a[k..] + "," + b;
      FieldsDistribute(a[k..], b);
    }
  }

  lemma {:induction false} SameComma(a: string, b: string)
    ensures CommaAt(a + "," + b) == CommaAt(a)
    decreases |a|
  {
    if a != "" && !SplitComma(a[0]) {
      assert (a + "," + b)[1..] == a[1..] + "," + b;
      SameComma(a[1..], b);
    }
  }

  lemma {:induction false} CleanDistributes(x: seq<string>, y: seq<string>)
    ensures Clean(x + y) == Clean(x) + Clean(y)
    decreases |x|
  {
    if x == [] {
      assert x + y == y;
    } else {
      assert (x + y)[1..] == x[1..] + y;
      CleanDistributes(x[1..], y);
    }
  }

  ghost predicate AllTidy(names: seq<string>) { forall i :: 0 <= i < |names| ==> Tidy(names[i]) }

  lemma {:induction false} ParseIsTidy(s: string)
    ensures AllTidy(Parse(s))
    decreases |s|
  {
    var k := CommaAt(s);
    if k == |s| {
      assert s[..k] == s;
      ParseOne(s);
      TrimSpaceCuts(s);
      TrimKeepsNoComma(s);
    } else {
      assert s == s[..k] + "," + s[k + 1..];
      ParseDistributes(s[..k], s[k + 1..]);
      ParseIsTidy(s[..k]);
      ParseIsTidy(s[k + 1..]);
    }
  }

  // Exactly the lists of such names survive being written out and read back.
  lemma {:induction false} JoinThenParse(names: seq<string>)
    ensures Parse(Join(names)) == names <==> AllTidy(names)
  {
    ParseIsTidy(Join(names));
    if AllTidy(names) { TidySurvives(names); }
  }

  lemma {:induction false} TidySurvives(names: seq<string>)
    requires AllTidy(names)
    ensures Parse(Join(names)) == names
  {
    if |names| > 0 {
      ParseOne(names[0]);
      TrimmedStays(names[0]);
    }
    if |names| > 1 {
      ParseDistributes(names[0], Join(names[1..]));
      TidySurvives(names[1..]);
    }
  }

  // The parse is stable: its result, joined and parsed again, is itself.
  lemma ParseStable(s: string)
    ensures Parse(Join(Parse(s))) == Parse(s)
  {
    ParseIsTidy(s);
    JoinThenParse(Parse(s));
  }
}
