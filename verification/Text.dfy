/** `String.prototype.trim`: white space and line terminators of ECMAScript sections 12.2
    and 12.3. */
module Text {

  predicate IsSpace(c: char) {
    || '\t' <= c <= '\r'
    || c == ' ' || c == '\U{A0}' || c == '\U{1680}' || '\U{2000}' <= c <= '\U{200A}'
    || c == '\U{2028}' || c == '\U{2029}' || c == '\U{202F}' || c == '\U{205F}' || c == '\U{3000}' || c == '\U{FEFF}'
  }

  function TrimStart(s: string): string {
    if s != "" && IsSpace(s[0]) then TrimStart(s[1..]) else s
  }

  function TrimEnd(s: string): string {
    if s != "" && IsSpace(s[|s| - 1]) then TrimEnd(s[..|s| - 1]) else s
  }

  function Trim(s: string): string { TrimEnd(TrimStart(s)) }

  lemma {:induction false} TrimStartTrims(s: string)
    ensures var r := TrimStart(s); r == "" || !IsSpace(r[0])
  {
    if s != "" && IsSpace(s[0]) { TrimStartTrims(s[1..]); }
  }

  lemma {:induction false} TrimEndTrims(s: string)
    ensures var r := TrimEnd(s); r <= s && (r == "" || !IsSpace(r[|r| - 1])) && TrimEnd(r) == r
  {
    if s != "" && IsSpace(s[|s| - 1]) { TrimEndTrims(s[..|s| - 1]); }
  }

  /** Trimming twice is trimming once. */
  lemma TrimTwice(s: string)
    ensures Trim(Trim(s)) == Trim(s)
  {
    TrimStartTrims(s);
    TrimEndTrims(TrimStart(s));
  }

  // ---- what trimming takes away ----

  /** White space and line terminators of ECMAScript. */
  predicate White(c: char) {
    || c in {'\t', '\n', '\U{0B}', '\U{0C}', '\r', ' ', '\U{A0}', '\U{1680}', '\U{2028}', '\U{2029}', '\U{202F}'}
    || c in {'\U{205F}', '\U{3000}', '\U{FEFF}'} || '\U{2000}' <= c <= '\U{200A}'
  }

  predicate AllWhite(s: string) { forall i :: 0 <= i < |s| ==> White(s[i]) }

  lemma WhiteMeans(c: char)
    ensures White(c) <==> IsSpace(c)
  {
  }

  lemma {:induction false} TrimStartCuts(s: string) returns (front: string)
    ensures AllWhite(front) && s == front + TrimStart(s)
    ensures TrimStart(s) == "" || !White(TrimStart(s)[0])
  {
    front := "";
    if s != "" {
      WhiteMeans(s[0]);
      if White(s[0]) {
        var rest := TrimStartCuts(s[1..]);
        front := [s[0]] + rest;
        assert s == [s[0]] + s[1..];
      }
    }
  }

  lemma {:induction false} TrimEndCuts(s: string) returns (back: string)
    ensures AllWhite(back) && s == TrimEnd(s) + back
    ensures TrimEnd(s) == "" || !White(TrimEnd(s)[|TrimEnd(s)| - 1])
  {
    back := "";
    if s != "" {
      WhiteMeans(s[|s| - 1]);
      if White(s[|s| - 1]) {
        var rest := TrimEndCuts(s[..|s| - 1]);
        back := rest + [s[|s| - 1]];
        assert s == s[..|s| - 1] + [s[|s| - 1]];
      }
    }
  }

  /** Trimming takes the white space off both ends and nothing else. */
  lemma TrimCuts(s: string) returns (front: string, back: string)
    ensures var t := Trim(s);
      && s == front + t + back && AllWhite(front) && AllWhite(back)
      && (t != "" ==> !White(t[0]) && !White(t[|t| - 1]))
  {
    front := TrimStartCuts(s);
    var rest := TrimStart(s);
    back := TrimEndCuts(rest);
    assert s == front + (TrimEnd(rest) + back);
  }

  lemma TrimsAllWhite(s: string)
    ensures Trim(s) == "" <==> AllWhite(s)
  {
    var front, back := TrimCuts(s);
    var t := Trim(s);
    if t == "" {
      assert s == front + back;
    } else {
      assert s[|front|] == t[0];
    }
  }
}
