/**
  The participant identity and the token derived from it.

  The form accepts a free-text identity (an e-mail address, a student
  number or a nickname). The identity is trimmed and lower-cased before it
  is digested; the digest is the token that bounds repeat participation.
  SHA-256 itself is not modelled: every member that hashes takes the digest
  as a parameter, and every lemma below holds for EVERY digest, so nothing
  here relies on the digest being injective.
 */
module Identity {

  /** Python's `str.isspace`: the characters `str.strip()` removes. */
  predicate IsSpace(c: char)
  {
    || ('\t' <= c <= '\r')                    // tab, line feed, vertical tab, form feed, carriage return
    || ('\U{1C}' <= c <= '\U{1F}')            // file, group, record and unit separators
    || c == ' '
    || c == '\U{85}' || c == '\U{A0}'         // next line, no-break space
    || c == '\U{1680}'                        // ogham space mark
    || ('\U{2000}' <= c <= '\U{200A}')        // en quad … hair space
    || c == '\U{2028}' || c == '\U{2029}'     // line and paragraph separators
    || c == '\U{202F}' || c == '\U{205F}' || c == '\U{3000}'
  }

  predicate AllSpace(s: string)
  {
    forall i :: 0 <= i < |s| ==> IsSpace(s[i])
  }

  /** An upper-case letter that `LowerChar` maps to a different character. */
  predicate IsUpper(c: char)
  {
    || ('A' <= c <= 'Z')
    || ('\U{C0}' <= c <= '\U{DE}' && c != '\U{D7}')   // Latin-1 capitals, without the multiplication sign
    || c == '\U{11E}'                                  // G with breve
    || c == '\U{15E}'                                  // S with cedilla
  }

  /** Python's `str.lower` on one character, for the letters `IsUpper` names. */
  function LowerChar(c: char): (d: char)
    ensures IsUpper(c) <==> d != c
    ensures !IsUpper(d)
    ensures IsSpace(d) <==> IsSpace(c)
  {
    if 'A' <= c <= 'Z' || ('\U{C0}' <= c <= '\U{DE}' && c != '\U{D7}') then
      (c as int + 32) as char
    else if c == '\U{11E}' || c == '\U{15E}' then
      (c as int + 1) as char
    else
      c
  }

  /** `str.lower`: every character lower-cased, length unchanged. */
  function Lower(s: string): (r: string)
    ensures |r| == |s|
    ensures forall i :: 0 <= i < |s| ==> r[i] == LowerChar(s[i])
  {
    seq(|s|, i requires 0 <= i < |s| => LowerChar(s[i]))
  }

  /** `str.lstrip()`: drops the leading whitespace. */
  function TrimStart(s: string): (r: string)
    ensures |r| <= |s| && r == s[|s| - |r|..]
    ensures forall k :: 0 <= k < |s| - |r| ==> IsSpace(s[k])
    ensures r == [] || !IsSpace(r[0])
  {
    if |s| > 0 && IsSpace(s[0]) then TrimStart(s[1..]) else s
  }

  /** `str.rstrip()`: drops the trailing whitespace. */
  function TrimEnd(s: string): (r: string)
    ensures |r| <= |s| && r == s[..|r|]
    ensures forall k :: |r| <= k < |s| ==> IsSpace(s[k])
    ensures r == [] || !IsSpace(r[|r| - 1])
  {
    if |s| > 0 && IsSpace(s[|s| - 1]) then TrimEnd(s[..|s| - 1]) else s
  }

  /** `str.strip()`: the input with its surrounding whitespace removed. */
  function Strip(s: string): (r: string)
    ensures |r| <= |s|
    ensures r == [] || (!IsSpace(r[0]) && !IsSpace(r[|r| - 1]))
  {
    var t := TrimStart(s);
    var r := TrimEnd(t);
    assert r != [] ==> r[0] == t[0];
    r
  }

  /** What `hash_kimlik` digests: `kimlik.strip().lower()`, which has no
      upper-case letter and no surrounding whitespace. */
  function Normalize(s: string): (r: string)
    ensures |r| <= |s|
    ensures forall i :: 0 <= i < |r| ==> !IsUpper(r[i])
    ensures r == [] || (!IsSpace(r[0]) && !IsSpace(r[|r| - 1]))
  {
    Lower(Strip(s))
  }

  /** `hash_kimlik`: the hex digest of the normalised identity. */
  function Token(digest: string -> string, kimlik: string): string
  {
    digest(Normalize(kimlik))
  }

  /** Strip returns a contiguous slice of its input framed by whitespace. */
  lemma StripIsTrimmedSlice(s: string)
    ensures exists i, j :: 0 <= i <= j <= |s| && Strip(s) == s[i..j]
                           && AllSpace(s[..i]) && AllSpace(s[j..])
  {
    var t := TrimStart(s);
    var r := TrimEnd(t);
    var i := |s| - |t|;
    var j := i + |r|;
    assert t == s[i..];
    assert r == s[i..j];
    forall k | 0 <= k < |s| - j
      ensures IsSpace(s[j..][k])
    {
      assert s[j..][k] == t[|r| + k];
    }
    assert AllSpace(s[..i]) && AllSpace(s[j..]);
  }

  lemma {:induction false} TrimStartOfSpacePrefix(w: string, s: string)
    requires AllSpace(w)
    ensures TrimStart(w + s) == TrimStart(s)
  {
    if w != [] {
      assert (w + s)[1..] == w[1..] + s;
      TrimStartOfSpacePrefix(w[1..], s);
    } else {
      assert w + s == s;
    }
  }

  lemma {:induction false} TrimEndOfSpaceSuffix(s: string, w: string)
    requires AllSpace(w)
    ensures TrimEnd(s + w) == TrimEnd(s)
  {
    if w != [] {
      assert (s + w)[..|s + w| - 1] == s + w[..|w| - 1];
      TrimEndOfSpaceSuffix(s, w[..|w| - 1]);
    } else {
      assert s + w == s;
    }
  }

  /** TrimStart leaves a string that ends in a non-space character as it
      ends, so trimming the end afterwards sees the same tail. */
  lemma {:induction false} TrimStartOfSpaceSuffix(s: string, w: string)
    requires AllSpace(w)
    ensures TrimStart(s + w) == TrimStart(s) + w || (AllSpace(s) && TrimStart(s + w) == [])
  {
    if |s| > 0 && IsSpace(s[0]) {
      assert (s + w)[1..] == s[1..] + w;
      TrimStartOfSpaceSuffix(s[1..], w);
    } else if |s| == 0 {
      assert s + w == w;
      TrimStartAllSpace(w);
    } else {
      assert (s + w)[0] == s[0];
    }
  }

  lemma {:induction false} TrimStartAllSpace(w: string)
    requires AllSpace(w)
    ensures TrimStart(w) == []
  {
    if w != [] {
      TrimStartAllSpace(w[1..]);
    }
  }

  /** Surrounding whitespace does not change the stripped identity. */
  lemma StripIgnoresSurroundingSpace(w1: string, s: string, w2: string)
    requires AllSpace(w1) && AllSpace(w2)
    ensures Strip(w1 + s + w2) == Strip(s)
  {
    calc {
      Strip(w1 + s + w2);
      { assert w1 + s + w2 == w1 + (s + w2); }
      TrimEnd(TrimStart(w1 + (s + w2)));
      { TrimStartOfSpacePrefix(w1, s + w2); }
      TrimEnd(TrimStart(s + w2));
    }
    TrimStartOfSpaceSuffix(s, w2);
    if TrimStart(s + w2) == TrimStart(s) + w2 {
      TrimEndOfSpaceSuffix(TrimStart(s), w2);
    } else {
      TrimStartAllSpace(s);
    }
  }

  lemma {:induction false} TrimStartLowerCommute(s: string)
    ensures TrimStart(Lower(s)) == Lower(TrimStart(s))
  {
    if |s| > 0 && IsSpace(s[0]) {
      assert Lower(s)[1..] == Lower(s[1..]);
      TrimStartLowerCommute(s[1..]);
    }
  }

  lemma {:induction false} TrimEndLowerCommute(s: string)
    ensures TrimEnd(Lower(s)) == Lower(TrimEnd(s))
  {
    if |s| > 0 && IsSpace(s[|s| - 1]) {
      assert Lower(s)[..|s| - 1] == Lower(s[..|s| - 1]);
      TrimEndLowerCommute(s[..|s| - 1]);
    }
  }

  /** Stripping and lower-casing can be done in either order. */
  lemma StripLowerCommute(s: string)
    ensures Strip(Lower(s)) == Lower(Strip(s))
  {
    TrimStartLowerCommute(s);
    TrimEndLowerCommute(TrimStart(s));
  }

  lemma LowerIdempotent(s: string)
    ensures Lower(Lower(s)) == Lower(s)
  {
  }

  lemma StripIdempotent(s: string)
    ensures Strip(Strip(s)) == Strip(s)
  {
    var r := Strip(s);
    if r != [] {
      assert TrimStart(r) == r;
      assert TrimEnd(r) == r;
    }
  }

  /** Normalising twice gives what normalising once gives. */
  lemma NormalizeIdempotent(s: string)
    ensures Normalize(Normalize(s)) == Normalize(s)
  {
    calc {
      Normalize(Normalize(s));
      Lower(Strip(Lower(Strip(s))));
      { StripLowerCommute(Strip(s)); }
      Lower(Lower(Strip(Strip(s))));
      { StripIdempotent(s); LowerIdempotent(Strip(s)); }
      Lower(Strip(s));
    }
  }

  /** Two identities that differ only in letter case and in surrounding
      whitespace receive the same token, whatever the digest. */
  lemma SameTokenUpToCaseAndSpace(digest: string -> string,
                                  w1: string, a: string, w2: string,
                                  w3: string, b: string, w4: string)
    requires AllSpace(w1) && AllSpace(w2) && AllSpace(w3) && AllSpace(w4)
    requires Lower(a) == Lower(b)
    ensures Token(digest, w1 + a + w2) == Token(digest, w3 + b + w4)
  {
    StripIgnoresSurroundingSpace(w1, a, w2);
    StripIgnoresSurroundingSpace(w3, b, w4);
    StripLowerCommute(a);
    StripLowerCommute(b);
  }

  /** The token depends on the identity only through its normal form. */
  lemma TokenDependsOnlyOnNormalForm(digest: string -> string, a: string, b: string)
    requires Normalize(a) == Normalize(b)
    ensures Token(digest, a) == Token(digest, b)
  {
  }

  /** A whitespace-only identity normalises to the empty string, so all such
      identities share the token `digest("")`. */
  lemma WhitespaceIdentityHashesEmpty(digest: string -> string, kimlik: string)
    requires AllSpace(kimlik)
    ensures Normalize(kimlik) == []
    ensures Token(digest, kimlik) == digest([])
  {
    TrimStartAllSpace(kimlik);
  }
}
