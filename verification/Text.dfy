/**
 Python string helpers over ASCII whitespace, and the code-point order that
 `sort` uses for strings.
 */
module Text {
  import opened Prelude

  predicate IsSpace(c: char) {
    c == ' ' || '\t' <= c <= '\r'
  }

  function LStrip(s: string): string {
    if s != "" && IsSpace(s[0]) then LStrip(s[1..]) else s
  }

  function RStrip(s: string): string {
    if s != "" && IsSpace(s[|s| - 1]) then RStrip(s[..|s| - 1]) else s
  }

  /** `s.strip()` */
  function Strip(s: string): string {
    RStrip(LStrip(s))
  }

  /** No whitespace at either end. */
  predicate Trimmed(s: string) {
    s == "" || (!IsSpace(s[0]) && !IsSpace(s[|s| - 1]))
  }

  function RStripSlashes(s: string): string {
    if s != "" && s[|s| - 1] == '/' then RStripSlashes(s[..|s| - 1]) else s
  }

  /** `s.split("(")[0]` */
  function BeforeParen(s: string): string {
    if s == "" || s[0] == '(' then "" else [s[0]] + BeforeParen(s[1..])
  }

  predicate StartsWith(s: string, prefix: string) {
    |prefix| <= |s| && s[..|prefix|] == prefix
  }

  predicate Contains(s: string, part: string) {
    StartsWith(s, part) || (s != "" && Contains(s[1..], part))
  }

  lemma {:induction false} LStripShape(s: string)
    ensures |LStrip(s)| <= |s|
    ensures LStrip(s) != "" ==> !IsSpace(LStrip(s)[0]) && s != "" && LStrip(s)[|LStrip(s)| - 1] == s[|s| - 1]
    ensures s != "" && !IsSpace(s[0]) ==> LStrip(s) == s
  {
    if s != "" && IsSpace(s[0]) {
      LStripShape(s[1..]);
    }
  }

  lemma {:induction false} RStripShape(s: string)
    ensures |RStrip(s)| <= |s|
    ensures RStrip(s) != "" ==> !IsSpace(RStrip(s)[|RStrip(s)| - 1]) && s != "" && RStrip(s)[0] == s[0]
    ensures s != "" && !IsSpace(s[|s| - 1]) ==> RStrip(s) == s
    ensures s != "" && !IsSpace(s[0]) ==> RStrip(s) != ""
  {
    if s != "" && IsSpace(s[|s| - 1]) {
      RStripShape(s[..|s| - 1]);
    }
  }

  /** Stripping trims, is idempotent, and changes exactly the strings that are not trimmed. */
  lemma {:induction false} StripTrims(s: string)
    ensures Trimmed(Strip(s))
    ensures Strip(Strip(s)) == Strip(s)
    ensures |Strip(s)| <= |s|
    ensures Strip(s) == s <==> Trimmed(s)
  {
    var l := LStrip(s);
    LStripShape(s);
    RStripShape(l);
    var r := RStrip(l);
    LStripShape(r);
    RStripShape(r);
    if Trimmed(s) && s != "" {
      RStripShape(s);
    }
  }

  predicate AllSpace(s: string) {
    forall i :: 0 <= i < |s| ==> IsSpace(s[i])
  }

  /** Stripping takes off whitespace at both ends and nothing else. */
  lemma {:induction false} StripTakesSpace(s: string) returns (before: string, after: string)
    ensures s == before + Strip(s) + after && AllSpace(before) && AllSpace(after)
  {
    before := LStripTakesSpace(s);
    after := RStripTakesSpace(LStrip(s));
  }

  lemma {:induction false} LStripTakesSpace(s: string) returns (before: string)
    ensures s == before + LStrip(s) && AllSpace(before)
  {
    if s != "" && IsSpace(s[0]) {
      before := LStripTakesSpace(s[1..]);
      before := [s[0]] + before;
    } else {
      before := "";
    }
  }

  lemma {:induction false} RStripTakesSpace(s: string) returns (after: string)
    ensures s == RStrip(s) + after && AllSpace(after)
  {
    if s != "" && IsSpace(s[|s| - 1]) {
      after := RStripTakesSpace(s[..|s| - 1]);
      after := after + [s[|s| - 1]];
    } else {
      after := "";
    }
  }

  /** `rstrip("/")` leaves no slash at the end and takes off nothing else. */
  lemma {:induction false} RStripSlashesSpec(s: string)
    ensures var r := RStripSlashes(s);
            && |r| <= |s| && r == s[..|r|] && (r != "" ==> r[|r| - 1] != '/')
            && forall i :: |r| <= i < |s| ==> s[i] == '/'
  {
    if s != "" && s[|s| - 1] == '/' {
      RStripSlashesSpec(s[..|s| - 1]);
    }
  }

  /** The part before the first parenthesis: no parenthesis in it, and one right after it if anything is. */
  lemma {:induction false} BeforeParenSpec(s: string)
    ensures var r := BeforeParen(s);
            && |r| <= |s| && r == s[..|r|] && (|r| < |s| ==> s[|r|] == '(')
            && forall i :: 0 <= i < |r| ==> r[i] != '('
  {
    if s != "" && s[0] != '(' {
      BeforeParenSpec(s[1..]);
    }
  }

  /** Code-point order on strings. */
  predicate LexLeq(a: string, b: string) {
    a == "" || (b != "" && (a[0] < b[0] || (a[0] == b[0] && LexLeq(a[1..], b[1..]))))
  }

  lemma {:induction false} LexTotal(a: string, b: string)
    ensures LexLeq(a, b) || LexLeq(b, a)
  {
    if a != "" && b != "" {
      LexTotal(a[1..], b[1..]);
    }
  }

  lemma {:induction false} LexAntisymmetric(a: string, b: string)
    requires LexLeq(a, b) && LexLeq(b, a)
    ensures a == b
  {
    if a != "" && b != "" {
      LexAntisymmetric(a[1..], b[1..]);
      assert a == [a[0]] + a[1..] && b == [b[0]] + b[1..];
    }
  }

  lemma {:induction false} LexTransitive(a: string, b: string, c: string)
    requires LexLeq(a, b) && LexLeq(b, c)
    ensures LexLeq(a, c)
  {
    if a != "" && b != "" && c != "" && a[0] == b[0] == c[0] {
      LexTransitive(a[1..], b[1..], c[1..]);
    }
  }
}
