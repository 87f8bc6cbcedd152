/** Strings: trimming, and the byte-wise order that sorts and the database compare with. */
module Text {

  /** unicode.IsSpace. */
  predicate IsSpace(c: char) {
    '\t' <= c <= '\r' || c == ' ' || c == '\U{85}' || c == '\U{A0}' || c == '\U{1680}'
    || '\U{2000}' <= c <= '\U{200A}' || c == '\U{2028}' || c == '\U{2029}' || c == '\U{202F}'
    || c == '\U{205F}' || c == '\U{3000}'
  }

  function TrimLeft(s: string): (r: string)
    ensures |r| <= |s|
    ensures r != "" ==> !IsSpace(r[0]) && r[|r| - 1] == s[|s| - 1]
  {
    if s != "" && IsSpace(s[0]) then TrimLeft(s[1..]) else s
  }

  function TrimRight(s: string): (r: string)
    ensures |r| <= |s|
    ensures r != "" ==> !IsSpace(r[|r| - 1]) && r[0] == s[0]
  {
    if s != "" && IsSpace(s[|s| - 1]) then TrimRight(s[..|s| - 1]) else s
  }

  /** strings.TrimSpace: no white space is left at either end. */
  function Trim(s: string): (r: string)
    ensures r != "" ==> !IsSpace(r[0]) && !IsSpace(r[|r| - 1])
  {
    TrimRight(TrimLeft(s))
  }

  lemma TrimIdempotent(s: string)
    ensures Trim(Trim(s)) == Trim(s)
  {
  }

  /** Byte-wise string order, which for valid UTF-8 is the order of the code points. */
  predicate Less(a: string, b: string) {
    b != "" && (a == "" || a[0] < b[0] || (a[0] == b[0] && Less(a[1..], b[1..])))
  }

  lemma {:induction false} LessTransitive(a: string, b: string, c: string)
    requires Less(a, b) && Less(b, c)
    ensures Less(a, c)
  {
    if a != "" && a[0] == b[0] == c[0] {
      LessTransitive(a[1..], b[1..], c[1..]);
    }
  }

  lemma {:induction false} LessTotal(a: string, b: string)
    ensures Less(a, b) || a == b || Less(b, a)
    ensures !(Less(a, b) && Less(b, a)) && !Less(a, a)
  {
    if a != "" && b != "" {
      LessTotal(a[1..], b[1..]);
      if a[0] == b[0] && a[1..] == b[1..] {
        assert a == [a[0]] + a[1..] == b;
      }
    }
    if a != "" {
      LessTotal(a[1..], a[1..]);
    }
  }

  /** A string with a visible character does not trim to nothing. */
  lemma {:induction false} VisibleStays(s: string, i: nat)
    requires i < |s| && !IsSpace(s[i])
    ensures Trim(s) != ""
    decreases |s|
  {
    if IsSpace(s[0]) {
      VisibleStays(s[1..], i - 1);
    } else if IsSpace(s[|s| - 1]) {
      VisibleStays(s[..|s| - 1], i);
    }
  }

  // ------------------------------------------------------------------ what trimming and comparing come to

  /** The white space of Unicode. */
  lemma SpacesAre()
    ensures forall c :: IsSpace(c) <==> c in {
      '\t', '\n', '\U{0B}', '\U{0C}', '\r', ' ', '\U{85}', '\U{A0}', '\U{1680}', '\U{2000}', '\U{2001}', '\U{2002}',
      '\U{2003}', '\U{2004}', '\U{2005}', '\U{2006}', '\U{2007}', '\U{2008}', '\U{2009}', '\U{200A}', '\U{2028}',
      '\U{2029}', '\U{202F}', '\U{205F}', '\U{3000}'}
  {
  }

  predicate AllSpace(s: string) {
    forall c <- s :: IsSpace(c)
  }

  /** What Trim takes away is white space at the two ends, and all of it. */
  lemma TrimIs(s: string) returns (front: string, back: string)
    ensures s == front + Trim(s) + back && AllSpace(front) && AllSpace(back)
  {
    hide IsSpace;
    front := SpaceInFront(s);
    back := SpaceBehind(TrimLeft(s));
    assert s == front + (Trim(s) + back);
  }

  lemma {:induction false} SpaceInFront(s: string) returns (front: string)
    ensures s == front + TrimLeft(s) && AllSpace(front)
  {
    hide IsSpace;
    if s != "" && IsSpace(s[0]) {
      var rest := SpaceInFront(s[1..]);
      front := [s[0]] + rest;
    } else {
      front := "";
    }
  }

  lemma {:induction false} SpaceBehind(s: string) returns (back: string)
    ensures s == TrimRight(s) + back && AllSpace(back)
  {
    hide IsSpace;
    if s != "" && IsSpace(s[|s| - 1]) {
      var rest := SpaceBehind(s[..|s| - 1]);
      back := rest + [s[|s| - 1]];
    } else {
      back := "";
    }
  }

  /** One string is less when it is the front of the other, or less where they first differ. */
  lemma {:induction false} LessIs(a: string, b: string)
    ensures Less(a, b) <==>
      || (a <= b && a != b)
      || exists k: nat :: k < |a| && k < |b| && a[..k] == b[..k] && a[k] < b[k]
  {
    if a != "" && b != "" && a[0] == b[0] {
      LessIs(a[1..], b[1..]);
      assert a == [a[0]] + a[1..] && b == [b[0]] + b[1..];
      if k: nat :| k < |a[1..]| && k < |b[1..]| && a[1..][..k] == b[1..][..k] && a[1..][k] < b[1..][k] {
        assert a[..k + 1] == [a[0]] + a[1..][..k] && b[..k + 1] == [b[0]] + b[1..][..k];
        assert a[k + 1] < b[k + 1];
      }
      if k: nat :| k < |a| && k < |b| && a[..k] == b[..k] && a[k] < b[k] {
        assert k > 0;
        assert a[1..][..k - 1] == a[..k][1..] && b[1..][..k - 1] == b[..k][1..];
        assert a[1..][k - 1] < b[1..][k - 1];
      }
    } else if a != "" && b != "" && a[0] < b[0] {
      assert a[..0] == b[..0];
    }
  }
}
