/**
 * The operations of `java.lang.String` that the instrumentation relies on,
 * over `seq<char>`. Case mapping is the ASCII one: Java's locale-sensitive,
 * full-Unicode `toUpperCase`/`toLowerCase` is not modelled.
 */
module JavaStrings {

  /** `s.startsWith(prefix)` */
  predicate StartsWith(s: string, prefix: string)
  {
    |prefix| <= |s| && s[..|prefix|] == prefix
  }

  /** `infix` occurs in `s` starting at offset `i`. */
  predicate OccursAt(s: string, infix: string, i: nat)
  {
    i + |infix| <= |s| && forall j :: 0 <= j < |infix| ==> s[i + j] == infix[j]
  }

  /** `s.contains(infix)` */
  predicate Contains(s: string, infix: string)
  {
    exists i | 0 <= i <= |s| :: OccursAt(s, infix, i)
  }

  predicate IsAsciiLower(c: char)
  {
    'a' <= c <= 'z'
  }

  predicate IsAsciiUpper(c: char)
  {
    'A' <= c <= 'Z'
  }

  /** `Character.toUpperCase` restricted to ASCII letters. */
  function UpperChar(c: char): (r: char)
    ensures !IsAsciiLower(r)
    ensures IsAsciiLower(c) ==> IsAsciiUpper(r) && r as int == c as int - 32
    ensures !IsAsciiLower(c) ==> r == c
  {
    if IsAsciiLower(c) then (c as int - 32) as char else c
  }

  /** `Character.toLowerCase` restricted to ASCII letters. */
  function LowerChar(c: char): (r: char)
    ensures !IsAsciiUpper(r)
    ensures IsAsciiUpper(c) ==> IsAsciiLower(r) && r as int == c as int + 32
    ensures !IsAsciiUpper(c) ==> r == c
  {
    if IsAsciiUpper(c) then (c as int + 32) as char else c
  }

  /** `s.toUpperCase()`: every character mapped on its own, length kept. */
  function ToUpper(s: string): (r: string)
    ensures |r| == |s|
    ensures forall i :: 0 <= i < |s| ==> r[i] == UpperChar(s[i])
  {
    if s == [] then [] else [UpperChar(s[0])] + ToUpper(s[1..])
  }

  /** `s.toLowerCase()`: every character mapped on its own, length kept. */
  function ToLower(s: string): (r: string)
    ensures |r| == |s|
    ensures forall i :: 0 <= i < |s| ==> r[i] == LowerChar(s[i])
  {
    if s == [] then [] else [LowerChar(s[0])] + ToLower(s[1..])
  }

  /** An upper-cased string holds no lower-case letter, and a space only where the input had one. */
  lemma ToUpperHasNoLowerCase(s: string)
    ensures forall i :: 0 <= i < |s| ==> !IsAsciiLower(ToUpper(s)[i])
    ensures ' ' in ToUpper(s) <==> ' ' in s
  {
    var r := ToUpper(s);
    if ' ' in r {
      var i :| 0 <= i < |r| && r[i] == ' ';
      assert s[i] == ' ';
    }
    if ' ' in s {
      var i :| 0 <= i < |s| && s[i] == ' ';
      assert r[i] == ' ';
    }
  }

  /** The characters `String.trim` strips: every code point up to U+0020. */
  predicate IsTrimmable(c: char)
  {
    c <= ' '
  }

  /** Number of trimmable characters at the front of `s` (the first loop of `trim`). */
  function LeadingTrimmable(s: string): (k: nat)
    ensures k <= |s|
    ensures forall i :: 0 <= i < k ==> IsTrimmable(s[i])
    ensures k < |s| ==> !IsTrimmable(s[k])
  {
    if s == [] || !IsTrimmable(s[0]) then 0 else 1 + LeadingTrimmable(s[1..])
  }

  /** Length of `s` without its trailing trimmable characters (the second loop of `trim`). */
  function TrailingKept(s: string): (k: nat)
    ensures k <= |s|
    ensures forall i :: k <= i < |s| ==> IsTrimmable(s[i])
    ensures 0 < k ==> !IsTrimmable(s[k - 1])
  {
    if s == [] || !IsTrimmable(s[|s| - 1]) then |s| else TrailingKept(s[..|s| - 1])
  }

  /**
   * The bounds `(st, len)` of `s.substring(st, len)` that `s.trim()` returns:
   * everything outside them is trimmable, and the kept part, when not empty,
   * starts and ends with a non-trimmable character.
   */
  function TrimBounds(s: string): (b: (nat, nat))
    ensures b.0 <= b.1 <= |s|
    ensures forall i :: 0 <= i < b.0 ==> IsTrimmable(s[i])
    ensures forall i :: b.1 <= i < |s| ==> IsTrimmable(s[i])
    ensures b.0 < b.1 ==> !IsTrimmable(s[b.0]) && !IsTrimmable(s[b.1 - 1])
    ensures b.0 == b.1 ==> b.0 == |s|
  {
    var st := LeadingTrimmable(s);
    var rest := s[st..];
    var kept := TrailingKept(rest);
    assert forall i :: st + kept <= i < |s| ==> s[i] == rest[i - st];
    (st, st + kept)
  }

  /** `s.trim()` */
  function Trim(s: string): (r: string)
    ensures |r| <= |s|
    ensures r != [] ==> !IsTrimmable(r[0]) && !IsTrimmable(r[|r| - 1])
    ensures r == [] <==> forall i :: 0 <= i < |s| ==> IsTrimmable(s[i])
  {
    var b := TrimBounds(s);
    s[b.0..b.1]
  }

  /** Trimming twice is trimming once. */
  lemma TrimIdempotent(s: string)
    ensures Trim(Trim(s)) == Trim(s)
  {
    var t := Trim(s);
    var b := TrimBounds(t);
    if t != [] {
      assert b.0 == 0;
      assert b.1 == |t|;
    }
  }

  /** Blanks around a word that starts and ends with a visible character are exactly what `trim` strips. */
  lemma TrimStripsSurroundingBlanks(lead: string, body: string, trail: string)
    requires forall i :: 0 <= i < |lead| ==> IsTrimmable(lead[i])
    requires forall i :: 0 <= i < |trail| ==> IsTrimmable(trail[i])
    requires body != [] && !IsTrimmable(body[0]) && !IsTrimmable(body[|body| - 1])
    ensures Trim(lead + body + trail) == body
  {
    var s := lead + body + trail;
    var b := TrimBounds(s);
    assert s[|lead|] == body[0];
    assert s[|lead| + |body| - 1] == body[|body| - 1];
    assert b.0 == |lead|;
    assert b.1 == |lead| + |body|;
    assert s[b.0..b.1] == body;
  }

  /** `trim` keeps a prefix made of visible characters: the result starts with it. */
  lemma TrimKeepsVisiblePrefix(p: string, tail: string)
    requires p != [] && forall i :: 0 <= i < |p| ==> !IsTrimmable(p[i])
    ensures |p| <= |Trim(p + tail)|
    ensures Trim(p + tail) == (p + tail)[..|Trim(p + tail)|]
  {
    var s := p + tail;
    var b := TrimBounds(s);
    assert !IsTrimmable(s[0]) && !IsTrimmable(s[|p| - 1]);
    assert b.0 == 0;
    assert b.1 >= |p|;
  }

  /** `s.indexOf(c)`: the first index of `c` in `s`, or -1 when there is none. */
  function IndexOf(s: string, c: char): (r: int)
    ensures -1 <= r < |s|
    ensures r == -1 <==> c !in s
    ensures 0 <= r ==> s[r] == c && c !in s[..r]
  {
    if s == [] then -1
    else if s[0] == c then 0
    else
      var i := IndexOf(s[1..], c);
      if i == -1 then -1
      else
        assert s[..i + 1] == [s[0]] + s[1..][..i];
        i + 1
  }

  /** Reference definition: the longest prefix of `s` holding no space. */
  function WordBeforeSpace(s: string): (w: string)
    ensures |w| <= |s| && w == s[..|w|]
    ensures ' ' !in w
    ensures |w| < |s| ==> s[|w|] == ' '
  {
    if s == [] || s[0] == ' ' then [] else [s[0]] + WordBeforeSpace(s[1..])
  }

  /** A word without a space, followed by a space or by nothing, is the word before the first space. */
  lemma WordThenSpace(w: string, rest: string)
    requires ' ' !in w
    ensures WordBeforeSpace(w + [' '] + rest) == w
    ensures WordBeforeSpace(w) == w
  {
    var s := w + [' '] + rest;
    var v := WordBeforeSpace(s);
    assert s[|w|] == ' ';
    assert forall i :: 0 <= i < |w| ==> s[i] == w[i] && s[i] != ' ';
    assert |v| == |w|;
    assert v == s[..|w|] == w;
  }

  /** A prefix without a space is part of the word before the first space. */
  lemma WordBeforeSpaceExtends(p: string, rest: string)
    requires ' ' !in p
    ensures WordBeforeSpace(p + rest) == p + WordBeforeSpace(rest)
  {
    if p != [] {
      var s := p + rest;
      assert s[0] == p[0] && s[1..] == p[1..] + rest;
      assert p[0] in p;
      assert ' ' !in p[1..] by {
        forall i | 0 <= i < |p[1..]| ensures p[1..][i] != ' ' {
          assert p[1..][i] == p[i + 1] && p[i + 1] in p;
        }
      }
      WordBeforeSpaceExtends(p[1..], rest);
      assert WordBeforeSpace(s) == [p[0]] + WordBeforeSpace(s[1..]);
      assert [p[0]] + (p[1..] + WordBeforeSpace(rest)) == p + WordBeforeSpace(rest);
    } else {
      assert p + rest == rest;
    }
  }

  /**
   * After trimming, a visible prefix without spaces is the whole first word
   * exactly when what follows it is nothing or a space; a visible character
   * after it lengthens the word.
   */
  lemma {:induction false} FirstWordAfterVisiblePrefix(p: string, tail: string)
    requires p != [] && forall i :: 0 <= i < |p| ==> !IsTrimmable(p[i]) && p[i] != ' '
    requires tail == [] || tail[0] == ' ' || !IsTrimmable(tail[0])
    ensures tail == [] || tail[0] == ' ' ==> WordBeforeSpace(Trim(p + tail)) == p
    ensures tail != [] && tail[0] != ' ' ==> |p| < |WordBeforeSpace(Trim(p + tail))|
  {
    TrimKeepsVisiblePrefix(p, tail);
    var t := Trim(p + tail);
    var r := t[|p|..];
    assert t == p + r;
    assert r == tail[..|r|];
    WordBeforeSpaceExtends(p, r);
    if tail != [] && tail[0] != ' ' {
      var p' := p + [tail[0]];
      assert p + tail == p' + tail[1..];
      TrimKeepsVisiblePrefix(p', tail[1..]);
      assert r[0] == tail[0];
    }
  }

  /** Cutting at `indexOf(' ')` yields the word before the first space. */
  lemma {:induction false} CutAtIndexOfSpace(s: string)
    ensures IndexOf(s, ' ') == -1 ==> WordBeforeSpace(s) == s
    ensures 0 <= IndexOf(s, ' ') ==> s[..IndexOf(s, ' ')] == WordBeforeSpace(s)
  {
  }

  /** `infix` occurs in `s` at offset `i` once both are lower-cased, character by character. */
  predicate OccursAtIgnoringCase(s: string, infix: string, i: nat)
  {
    i + |infix| <= |s| && forall j :: 0 <= j < |infix| ==> LowerChar(s[i + j]) == LowerChar(infix[j])
  }

  /** Reference definition: `infix` occurs in `s` when letter case is disregarded. */
  predicate ContainsIgnoringCase(s: string, infix: string)
  {
    exists i | 0 <= i <= |s| :: OccursAtIgnoringCase(s, infix, i)
  }

  /** `s.toLowerCase().contains(infix.toLowerCase())` is a case-blind search. */
  lemma LowerCaseContains(s: string, infix: string)
    ensures Contains(ToLower(s), ToLower(infix)) <==> ContainsIgnoringCase(s, infix)
  {
    var ls, li := ToLower(s), ToLower(infix);
    forall i | 0 <= i <= |s|
      ensures OccursAt(ls, li, i) <==> OccursAtIgnoringCase(s, infix, i)
    {
      if i + |infix| <= |s| {
        assert forall j :: 0 <= j < |infix| ==> ls[i + j] == LowerChar(s[i + j]) && li[j] == LowerChar(infix[j]);
      }
    }
  }
}
