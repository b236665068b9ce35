/**
  The PHP 8 string builtins that the redirect subscriber relies on: `substr`
  with non-negative offsets, `strpos`, `explode`/`implode` on "\r\n", and the
  truthiness of a string in a boolean context.
 */
module PhpString {
  import opened Wrappers

  /** The line separator the override text is split on. */
  const CRLF: string := "\r\n"

  function Min(a: nat, b: nat): nat { if a <= b then a else b }

  /** `substr($s, $offset, $length)`: at most `length` characters starting at
      `offset`, and "" when `offset` lies past the end (PHP 8 behaviour). */
  function Substr(s: string, offset: nat, length: nat): (r: string)
    ensures offset <= |s| ==> |r| == Min(length, |s| - offset)
    ensures offset > |s| ==> r == ""
    ensures forall i :: 0 <= i < |r| ==> offset + i < |s| && r[i] == s[offset + i]
  {
    s[Min(offset, |s|)..Min(offset + length, |s|)]
  }

  /** `substr($s, $offset)`: everything from `offset` on, "" past the end. */
  function SubstrFrom(s: string, offset: nat): (r: string)
    ensures offset <= |s| ==> |r| == |s| - offset
    ensures offset > |s| ==> r == ""
    ensures forall i :: 0 <= i < |r| ==> offset + i < |s| && r[i] == s[offset + i]
  {
    s[Min(offset, |s|)..]
  }

  /** `needle` occurs in `haystack` starting at index `i`. */
  predicate OccursAt(haystack: string, needle: string, i: int)
  {
    0 <= i && i + |needle| <= |haystack| && haystack[i..i + |needle|] == needle
  }

  /** `needle` occurs somewhere in `haystack`; the empty needle occurs everywhere. */
  ghost predicate Contains(haystack: string, needle: string)
  {
    exists i :: OccursAt(haystack, needle, i)
  }

  /** The search behind `strpos`, starting at index `k`. */
  function StrPosFrom(haystack: string, needle: string, k: nat): (r: Option<nat>)
    requires k <= |haystack|
    decreases |haystack| - k
    ensures r.Some? ==> k <= r.value && OccursAt(haystack, needle, r.value)
    ensures r.Some? ==> forall j :: k <= j < r.value ==> !OccursAt(haystack, needle, j)
    ensures r.None? ==> forall j :: k <= j ==> !OccursAt(haystack, needle, j)
  {
    if |haystack| - k < |needle| then None
    else if haystack[k..k + |needle|] == needle then Some(k)
    else
      assert |needle| > 0;
      StrPosFrom(haystack, needle, k + 1)
  }

  /** `strpos($haystack, $needle)` under PHP 8: the first index at which the
      needle occurs, or FALSE (here None). An empty needle is found at 0. */
  function StrPos(haystack: string, needle: string): (r: Option<nat>)
    ensures r.Some? ==> OccursAt(haystack, needle, r.value)
    ensures r.Some? ==> forall j :: 0 <= j < r.value ==> !OccursAt(haystack, needle, j)
    ensures r.None? <==> !Contains(haystack, needle)
  {
    StrPosFrom(haystack, needle, 0)
  }

  /** A string is truthy in PHP unless it is "" or "0". */
  predicate IsTruthy(s: string)
  {
    s != "" && s != "0"
  }

  /** `explode("\r\n", $s)`: the pieces between successive CRLF separators,
      scanning left to right. */
  function Explode(s: string): (pieces: seq<string>)
    decreases |s|
    ensures |pieces| >= 1
    ensures pieces[0] <= s
  {
    if |s| < 2 then [s]
    else if s[..2] == CRLF then [""] + Explode(s[2..])
    else
      var rest := Explode(s[1..]);
      [[s[0]] + rest[0]] + rest[1..]
  }

  /** `implode("\r\n", $pieces)`. */
  function Implode(pieces: seq<string>): string
  {
    if |pieces| == 0 then ""
    else if |pieces| == 1 then pieces[0]
    else pieces[0] + CRLF + Implode(pieces[1..])
  }

  /** Prepending a character to the first piece prepends it to the join. */
  lemma ImplodeConsFirst(c: char, first: string, tail: seq<string>)
    ensures Implode([[c] + first] + tail) == [c] + Implode([first] + tail)
  {
    var ps, qs := [[c] + first] + tail, [first] + tail;
    assert ps[1..] == tail && qs[1..] == tail;
    if tail != [] {
      var joined := Implode(tail);
      assert ([c] + first) + CRLF + joined == [c] + (first + CRLF + joined);
    }
  }

  /** Joining the pieces of `explode` with CRLF gives back the original text. */
  lemma {:induction false} ImplodeExplode(s: string)
    ensures Implode(Explode(s)) == s
    decreases |s|
  {
    if |s| < 2 {
    } else if s[..2] == CRLF {
      var rest := Explode(s[2..]);
      ImplodeExplode(s[2..]);
      assert ([""] + rest)[1..] == rest;
      calc {
        Implode(Explode(s));
        Implode([""] + rest);
        "" + CRLF + Implode(rest);
        s[..2] + s[2..];
        s;
      }
    } else {
      var rest := Explode(s[1..]);
      ImplodeExplode(s[1..]);
      ImplodeConsFirst(s[0], rest[0], rest[1..]);
      assert [rest[0]] + rest[1..] == rest;
      assert [s[0]] + s[1..] == s;
    }
  }

  /** A CRLF separator starts at index `i` of `p`. */
  predicate CRLFAt(p: string, i: int)
  {
    0 <= i < |p| - 1 && p[i] == '\r' && p[i + 1] == '\n'
  }

  /** `p` has no CRLF inside it. */
  ghost predicate FreeOfCRLF(p: string)
  {
    forall i :: !CRLFAt(p, i)
  }

  /** A CRLF inside `[c] + p` at a positive index is a CRLF of `p`. */
  lemma ConsCRLF(c: char, p: string)
    ensures forall i :: i > 0 ==> (CRLFAt([c] + p, i) <==> CRLFAt(p, i - 1))
  {
    var s := [c] + p;
    forall i | i > 0 ensures CRLFAt(s, i) <==> CRLFAt(p, i - 1) {
      if 0 < i < |s| - 1 {
        assert s[i] == p[i - 1] && s[i + 1] == p[i];
      }
    }
  }

  /** No piece of `explode("\r\n", $s)` contains the separator. */
  lemma {:induction false} ExplodePiecesFree(s: string)
    ensures forall i :: 0 <= i < |Explode(s)| ==> FreeOfCRLF(Explode(s)[i])
    decreases |s|
  {
    if |s| < 2 {
    } else if s[..2] == CRLF {
      ExplodePiecesFree(s[2..]);
      var rest := Explode(s[2..]);
      assert Explode(s) == [""] + rest;
      forall i | 0 <= i < |Explode(s)| ensures FreeOfCRLF(Explode(s)[i]) {
        if i > 0 {
          assert Explode(s)[i] == rest[i - 1];
        }
      }
    } else {
      ExplodePiecesFree(s[1..]);
      var rest := Explode(s[1..]);
      var first := [s[0]] + rest[0];
      assert Explode(s) == [first] + rest[1..];
      ConsCRLF(s[0], rest[0]);
      assert !CRLFAt(first, 0) by {
        if |rest[0]| > 0 {
          assert first[1] == rest[0][0] == s[1];
          assert s[..2] == [s[0], s[1]];
        }
      }
      forall i | 0 <= i < |Explode(s)| ensures FreeOfCRLF(Explode(s)[i]) {
        if i > 0 {
          assert Explode(s)[i] == rest[i];
        }
      }
    }
  }

  /** A separator-free prefix followed by CRLF becomes the first piece. */
  lemma {:induction false} ExplodeSplitsAtFirstCRLF(p: string, t: string)
    requires FreeOfCRLF(p)
    ensures Explode(p + CRLF + t) == [p] + Explode(t)
    decreases |p|
  {
    var s := p + CRLF + t;
    if p == [] {
      assert s == CRLF + t && s[..2] == CRLF && s[2..] == t;
    } else {
      var tail := p[1..];
      assert [p[0]] + tail == p;
      ConsCRLF(p[0], tail);
      assert FreeOfCRLF(tail) by {
        forall j ensures !CRLFAt(tail, j) {
          assert !CRLFAt(p, j + 1);
        }
      }
      ExplodeSplitsAtFirstCRLF(tail, t);
      assert s[1..] == tail + CRLF + t;
      assert s[..2] != CRLF by {
        assert s[..2] == [s[0], s[1]];
        if |tail| > 0 {
          assert s[1] == p[1];
          assert !CRLFAt(p, 0);
        } else {
          assert s[1] == '\r';
        }
      }
    }
  }

  /** A separator-free text explodes to itself alone. */
  lemma {:induction false} ExplodeOfFree(p: string)
    requires FreeOfCRLF(p)
    ensures Explode(p) == [p]
    decreases |p|
  {
    if |p| >= 2 {
      var tail := p[1..];
      assert [p[0]] + tail == p;
      ConsCRLF(p[0], tail);
      assert FreeOfCRLF(tail) by {
        forall j ensures !CRLFAt(tail, j) {
          assert !CRLFAt(p, j + 1);
        }
      }
      ExplodeOfFree(tail);
      assert p[..2] != CRLF by {
        assert p[..2] == [p[0], p[1]];
        assert !CRLFAt(p, 0);
      }
    }
  }

  /** Exploding a CRLF-join of separator-free pieces recovers the pieces, so
      `explode` is the only way to cut a text into separator-free lines. */
  lemma {:induction false} ExplodeImplode(pieces: seq<string>)
    requires |pieces| >= 1
    requires forall i :: 0 <= i < |pieces| ==> FreeOfCRLF(pieces[i])
    ensures Explode(Implode(pieces)) == pieces
    decreases |pieces|
  {
    if |pieces| == 1 {
      ExplodeOfFree(pieces[0]);
    } else {
      ExplodeImplode(pieces[1..]);
      ExplodeSplitsAtFirstCRLF(pieces[0], Implode(pieces[1..]));
      assert [pieces[0]] + pieces[1..] == pieces;
    }
  }
}
