/**
  The string primitives the application relies on, defined over Dafny's
  Unicode `char`:

  - `Trim` is `String.prototype.trim`: it removes WhiteSpace and
    LineTerminator code points (ECMAScript sections 12.2 and 12.3) from both
    ends;
  - `Lower` is `String.prototype.toLowerCase` restricted to the Basic Latin
    and Latin-1 upper-case letters (every other character is left alone);
  - `Join` is `Array.prototype.join` over an array of strings.

  `Split` is not used by the application: it is the inverse against which
  `Join` is checked.
 */
module Text {

  /** The WhiteSpace and LineTerminator code points that `trim` strips. */
  predicate IsWhitespace(c: char) {
    var n := c as int;
    || (0x09 <= n <= 0x0D)        // TAB, LF, VT, FF, CR
    || n == 0x20                  // SPACE
    || n == 0xA0                  // NO-BREAK SPACE
    || n == 0x1680                // OGHAM SPACE MARK
    || (0x2000 <= n <= 0x200A)    // EN QUAD .. HAIR SPACE
    || n == 0x2028 || n == 0x2029 // LINE / PARAGRAPH SEPARATOR
    || n == 0x202F || n == 0x205F || n == 0x3000
    || n == 0xFEFF                // ZERO WIDTH NO-BREAK SPACE
  }

  predicate AllWhitespace(s: string) {
    forall i | 0 <= i < |s| :: IsWhitespace(s[i])
  }

  /** Neither end of `s` is a whitespace character. */
  predicate Trimmed(s: string) {
    |s| == 0 || (!IsWhitespace(s[0]) && !IsWhitespace(s[|s| - 1]))
  }

  function TrimStart(s: string): string
    decreases |s|
  {
    if |s| > 0 && IsWhitespace(s[0]) then TrimStart(s[1..]) else s
  }

  function TrimEnd(s: string): string
    decreases |s|
  {
    if |s| > 0 && IsWhitespace(s[|s| - 1]) then TrimEnd(s[..|s| - 1]) else s
  }

  /** `s.trim()`: never longer than `s`, and no whitespace left at either end. */
  function Trim(s: string): (r: string)
    ensures |r| <= |s|
    ensures Trimmed(r)
  {
    TrimStartSplit(s);
    TrimEndSplit(TrimStart(s));
    TrimEnd(TrimStart(s))
  }

  /** `TrimStart` drops a whitespace prefix and stops at the first other character. */
  lemma {:induction false} TrimStartSplit(s: string)
    ensures |TrimStart(s)| <= |s|
    ensures TrimStart(s) == s[|s| - |TrimStart(s)|..]
    ensures AllWhitespace(s[..|s| - |TrimStart(s)|])
    ensures |TrimStart(s)| == 0 || !IsWhitespace(TrimStart(s)[0])
    decreases |s|
  {
    if |s| > 0 && IsWhitespace(s[0]) {
      TrimStartSplit(s[1..]);
      var k := |s| - |TrimStart(s)|;
      assert s[1..][..k - 1] == s[1..k];
      assert forall i | 0 <= i < k :: s[..k][i] == s[i];
    }
  }

  /** `TrimEnd` drops a whitespace suffix and stops at the last other character. */
  lemma {:induction false} TrimEndSplit(s: string)
    ensures |TrimEnd(s)| <= |s|
    ensures TrimEnd(s) == s[..|TrimEnd(s)|]
    ensures AllWhitespace(s[|TrimEnd(s)|..])
    ensures |TrimEnd(s)| == 0 || !IsWhitespace(TrimEnd(s)[|TrimEnd(s)| - 1])
    decreases |s|
  {
    if |s| > 0 && IsWhitespace(s[|s| - 1]) {
      var p := s[..|s| - 1];
      TrimEndSplit(p);
      var k := |TrimEnd(s)|;
      assert p[..k] == s[..k];
      assert forall i | k <= i < |s| - 1 :: s[i] == p[i];
    }
  }

  /**
    `Trim(s)` is a contiguous slice of `s`, everything cut off on either side
    is whitespace, and the slice itself has no whitespace at either end.
   */
  lemma TrimSplit(s: string)
    ensures |TrimStart(s)| <= |s|
    ensures var a := |s| - |TrimStart(s)|;
      && a + |Trim(s)| <= |s|
      && Trim(s) == s[a..a + |Trim(s)|]
      && AllWhitespace(s[..a])
      && AllWhitespace(s[a + |Trim(s)|..])
    ensures Trimmed(Trim(s))
  {
    TrimStartSplit(s);
    var u := TrimStart(s);
    TrimEndSplit(u);
    var a := |s| - |u|;
    var t := Trim(s);
    assert u[..|t|] == s[a..a + |t|];
    assert forall i | a + |t| <= i < |s| :: s[i] == u[i - a];
    assert forall i | 0 <= i < |s| - (a + |t|) :: s[a + |t|..][i] == u[|t|..][i];
    if |t| > 0 {
      assert t[0] == u[0];
    }
  }

  lemma {:induction false} TrimStartSkipsWhitespace(a: string, u: string)
    requires AllWhitespace(a)
    ensures TrimStart(a + u) == TrimStart(u)
    decreases |a|
  {
    if |a| > 0 {
      assert (a + u)[1..] == a[1..] + u;
      TrimStartSkipsWhitespace(a[1..], u);
    } else {
      assert a + u == u;
    }
  }

  lemma {:induction false} TrimEndSkipsWhitespace(u: string, b: string)
    requires AllWhitespace(b)
    ensures TrimEnd(u + b) == TrimEnd(u)
    decreases |b|
  {
    if |b| > 0 {
      assert (u + b)[..|u + b| - 1] == u + b[..|b| - 1];
      TrimEndSkipsWhitespace(u, b[..|b| - 1]);
    } else {
      assert u + b == u;
    }
  }

  /**
    The converse of `TrimSplit`: whatever whitespace surrounds a trimmed
    string, `Trim` returns exactly that string. Together the two lemmas
    characterise `Trim` completely.
   */
  lemma TrimUnique(a: string, t: string, b: string)
    requires AllWhitespace(a) && AllWhitespace(b) && Trimmed(t)
    ensures Trim(a + t + b) == t
  {
    assert a + t + b == a + (t + b);
    TrimStartSkipsWhitespace(a, t + b);
    if |t| == 0 {
      assert t == "" && t + b == b && b + "" == b;
      TrimStartSkipsWhitespace(b, "");
      assert TrimStart(t + b) == TrimStart("") == "";
    } else {
      assert (t + b)[0] == t[0];
      TrimEndSkipsWhitespace(t, b);
    }
  }

  /** Trimming twice is trimming once. */
  lemma TrimIdempotent(s: string)
    ensures Trim(Trim(s)) == Trim(s)
  {
    TrimSplit(s);
    var t := Trim(s);
    assert "" + t + "" == t;
    TrimUnique("", t, "");
  }

  /** A string trims to nothing exactly when it is all whitespace. */
  lemma TrimEmptyIffWhitespace(s: string)
    ensures |Trim(s)| == 0 <==> AllWhitespace(s)
  {
    TrimSplit(s);
    if AllWhitespace(s) {
      assert "" + "" + s == s;
      TrimUnique("", "", s);
    }
    if |Trim(s)| == 0 {
      var a := |s| - |TrimStart(s)|;
      forall i | 0 <= i < |s| ensures IsWhitespace(s[i]) {
        if i < a {
          assert s[..a][i] == s[i];
        } else {
          assert s[a..][i - a] == s[i];
        }
      }
    }
  }

  predicate IsUpper(c: char) {
    ('A' <= c <= 'Z') || ('À' <= c <= 'Þ' && c != '×')
  }

  /** Upper-case letters of Basic Latin and Latin-1 map to the letter 32 code points up. */
  function LowerChar(c: char): (r: char)
    ensures !IsUpper(r)
    ensures IsUpper(c) ==> r as int == c as int + 32
    ensures !IsUpper(c) ==> r == c
  {
    if IsUpper(c) then (c as int + 32) as char else c
  }

  /**
    `s.toLowerCase()`: same length, every upper-case letter replaced by its
    lower-case letter (32 code points up), every other character kept.
   */
  function Lower(s: string): (r: string)
    ensures |r| == |s|
    ensures forall i | 0 <= i < |r| :: !IsUpper(r[i])
    ensures forall i | 0 <= i < |s| && IsUpper(s[i]) :: r[i] as int == s[i] as int + 32
    ensures forall i | 0 <= i < |s| && !IsUpper(s[i]) :: r[i] == s[i]
  {
    seq(|s|, i requires 0 <= i < |s| => LowerChar(s[i]))
  }

  /** Lower-casing keeps every character that is not upper case and is idempotent. */
  lemma LowerFixpoint(s: string)
    ensures Lower(s) == s <==> forall i | 0 <= i < |s| :: !IsUpper(s[i])
    ensures Lower(Lower(s)) == Lower(s)
  {
  }

  /** Elementwise `Lower`, the lower-cased list `handleAddIngredient` searches. */
  function LowerAll(xs: seq<string>): seq<string> {
    seq(|xs|, i requires 0 <= i < |xs| => Lower(xs[i]))
  }

  /** `xs.join(sep)`: the elements in order with `sep` between neighbours. */
  function Join(xs: seq<string>, sep: string): string
    decreases |xs|
  {
    if |xs| == 0 then ""
    else if |xs| == 1 then xs[0]
    else xs[0] + sep + Join(xs[1..], sep)
  }

  /** Cuts `s` at every occurrence of `sep`, scanning from the left. */
  function Split(s: string, sep: string): (r: seq<string>)
    requires |sep| > 0
    ensures |r| > 0
  {
    SplitFrom(s, sep, "")
  }

  /** `cur` is the piece collected since the last separator. */
  function SplitFrom(s: string, sep: string, cur: string): (r: seq<string>)
    requires |sep| > 0
    ensures |r| > 0
    decreases |s|
  {
    if |s| == 0 then [cur]
    else if |sep| <= |s| && s[..|sep|] == sep then [cur] + SplitFrom(s[|sep|..], sep, "")
    else SplitFrom(s[1..], sep, cur + [s[0]])
  }

  lemma {:induction false} SplitFromPlain(x: string, rest: string, sep: string, cur: string)
    requires |sep| > 0 && sep[0] !in x
    ensures SplitFrom(x + rest, sep, cur) == SplitFrom(rest, sep, cur + x)
    decreases |x|
  {
    if |x| == 0 {
      assert x + rest == rest;
      assert cur + x == cur;
    } else {
      var s := x + rest;
      assert s[0] == x[0];
      if |sep| <= |s| {
        assert s[..|sep|][0] == x[0];
      }
      assert s[1..] == x[1..] + rest;
      SplitFromPlain(x[1..], rest, sep, cur + [x[0]]);
      assert cur + [x[0]] + x[1..] == cur + x;
    }
  }

  /**
    `Split` undoes `Join` when no element contains the first character of
    the separator, so the joined text can be cut back into the same
    elements in the same order.
   */
  lemma {:induction false} SplitJoin(xs: seq<string>, sep: string)
    requires |xs| > 0 && |sep| > 0
    requires forall i | 0 <= i < |xs| :: sep[0] !in xs[i]
    ensures Split(Join(xs, sep), sep) == xs
    decreases |xs|
  {
    if |xs| == 1 {
      SplitFromPlain(xs[0], "", sep, "");
      assert xs[0] + "" == xs[0];
      assert "" + xs[0] == xs[0];
    } else {
      var tail := Join(xs[1..], sep);
      assert Join(xs, sep) == xs[0] + (sep + tail);
      SplitFromPlain(xs[0], sep + tail, sep, "");
      assert "" + xs[0] == xs[0];
      var s := sep + tail;
      assert s[..|sep|] == sep;
      assert s[|sep|..] == tail;
      SplitJoin(xs[1..], sep);
      assert xs == [xs[0]] + xs[1..];
    }
  }
}
