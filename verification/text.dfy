/** `CompanyWebScraper.clean_text`: `re.sub(r'[^\w\s.,!?-]', '', text).strip()`. */
module TextClean {
  import opened Basics

  /** CPython's `Py_UNICODE_ISSPACE`: what `\s` matches in a `str` pattern and
      what `str.strip()` removes. */
  predicate IsSpace(c: char) {
    || ('\U{9}' <= c <= '\U{D}')
    || ('\U{1C}' <= c <= '\U{1F}')
    || c == ' ' || c == '\U{85}' || c == '\U{A0}' || c == '\U{1680}'
    || ('\U{2000}' <= c <= '\U{200A}')
    || c == '\U{2028}' || c == '\U{2029}' || c == '\U{202F}' || c == '\U{205F}'
    || c == '\U{3000}'
  }

  /** The punctuation the character class keeps besides `\w` and `\s`. */
  predicate IsKeptPunct(c: char) {
    c == '.' || c == ',' || c == '!' || c == '?' || c == '-'
  }

  /** A character survives the substitution. `isWord` is Python's Unicode `\w`,
      left abstract. */
  predicate Kept(isWord: char -> bool, c: char) {
    isWord(c) || IsSpace(c) || IsKeptPunct(c)
  }

  predicate NoEdgeSpace(s: string) {
    s == [] || (!IsSpace(s[0]) && !IsSpace(s[|s| - 1]))
  }

  /** The shape of every `clean_text` result. */
  predicate IsClean(isWord: char -> bool, s: string) {
    && (forall i :: 0 <= i < |s| ==> Kept(isWord, s[i]))
    && NoEdgeSpace(s)
  }

  /** The regular-expression substitution: deletes every character outside the class. */
  function Filter(isWord: char -> bool, s: string): (r: string)
    ensures forall i :: 0 <= i < |r| ==> Kept(isWord, r[i])
    ensures forall c {:trigger multiset(s)[c]} :: Kept(isWord, c) ==> multiset(r)[c] == multiset(s)[c]
    ensures IsSubseq(r, s)
    decreases |s|
  {
    if s == [] then []
    else
      var rest := Filter(isWord, s[1..]);
      assert s == [s[0]] + s[1..];
      if Kept(isWord, s[0]) then [s[0]] + rest else rest
  }

  predicate AllSpace(s: string) {
    forall i :: 0 <= i < |s| ==> IsSpace(s[i])
  }

  /** A string whose characters are all whitespace holds no other character. */
  lemma {:induction false} AllSpaceCount(u: string, c: char)
    requires AllSpace(u)
    requires !IsSpace(c)
    ensures multiset(u)[c] == 0
  {
    assert c !in u;
  }

  /** The first index at or after `i` that does not hold whitespace (`|s|` if
      there is none). */
  function SkipSpace(s: string, i: nat): (j: nat)
    requires i <= |s|
    ensures i <= j <= |s|
    ensures forall k :: i <= k < j ==> IsSpace(s[k])
    ensures j < |s| ==> !IsSpace(s[j])
    decreases |s| - i
  {
    if i < |s| && IsSpace(s[i]) then SkipSpace(s, i + 1) else i
  }

  /** The index just past the last character before `j` that is not whitespace
      (`0` if there is none). */
  function BackSpace(s: string, j: nat): (i: nat)
    requires j <= |s|
    ensures i <= j
    ensures forall k :: i <= k < j ==> IsSpace(s[k])
    ensures 0 < i ==> !IsSpace(s[i - 1])
    decreases j
  {
    if 0 < j && IsSpace(s[j - 1]) then BackSpace(s, j - 1) else j
  }

  /** Where the text of `s` starts, past its leading whitespace. */
  function Start(s: string): nat {
    SkipSpace(s, 0)
  }

  /** Where the text of `s` ends, before its trailing whitespace. */
  function End(s: string): nat {
    BackSpace(s, |s|)
  }

  /** The leading and trailing whitespace runs meet only in an all-whitespace string. */
  lemma StartEnd(s: string)
    ensures Start(s) < |s| <==> Start(s) < End(s)
  {
    if Start(s) < |s| {
      assert !IsSpace(s[Start(s)]);
    }
  }

  /** `str.strip()`: the text between the leading and the trailing whitespace. */
  function Strip(s: string): (r: string)
    ensures |r| <= |s|
    ensures NoEdgeSpace(r)
  {
    if Start(s) < End(s) then s[Start(s)..End(s)] else []
  }

  /** `str.strip()` keeps exactly the span after the leading whitespace; what
      it drops on either side is whitespace. */
  lemma StripSpan(s: string)
    ensures Start(s) + |Strip(s)| <= |s|
    ensures forall i :: 0 <= i < |Strip(s)| ==> Strip(s)[i] == s[Start(s) + i]
    ensures forall i :: 0 <= i < Start(s) ==> IsSpace(s[i])
    ensures forall i :: Start(s) + |Strip(s)| <= i < |s| ==> IsSpace(s[i])
  {
    StartEnd(s);
  }

  /** Unless the string is all whitespace, `str.strip()` is the slice between
      the two whitespace runs. */
  lemma StripSlice(s: string)
    requires Start(s) < |s|
    ensures Start(s) < End(s) && Strip(s) == s[Start(s)..End(s)]
  {
    StartEnd(s);
  }

  /** Stripping deletes characters only: the result is a subsequence. */
  lemma StripIsSubsequence(s: string)
    ensures IsSubseq(Strip(s), s)
  {
    StripSpan(s);
    var lo, hi := Start(s), Start(s) + |Strip(s)|;
    assert Strip(s) == s[lo..hi];
    SliceSubseq(s, lo, hi);
  }

  /** Cutting whitespace off both ends of a string keeps every other character. */
  lemma MiddleCount(s: string, lo: nat, hi: nat, c: char)
    requires lo <= hi <= |s|
    requires AllSpace(s[..lo]) && AllSpace(s[hi..])
    requires !IsSpace(c)
    ensures multiset(s[lo..hi])[c] == multiset(s)[c]
  {
    var front, middle, back := s[..lo], s[lo..hi], s[hi..];
    assert s == front + middle + back;
    assert multiset(s) == multiset(front) + multiset(middle) + multiset(back);
    AllSpaceCount(front, c);
    AllSpaceCount(back, c);
  }

  /** Stripping removes whitespace and nothing else. */
  lemma StripKeepsNonSpace(s: string, c: char)
    requires !IsSpace(c)
    ensures multiset(Strip(s))[c] == multiset(s)[c]
  {
    StripSpan(s);
    var lo, hi := Start(s), Start(s) + |Strip(s)|;
    assert Strip(s) == s[lo..hi];
    assert AllSpace(s[..lo]) && AllSpace(s[hi..]);
    MiddleCount(s, lo, hi, c);
  }

  /** A string without edge whitespace is left alone. */
  lemma StripOfStripped(s: string)
    requires NoEdgeSpace(s)
    ensures Strip(s) == s
  {
  }

  /** `clean_text`: keeps word characters, whitespace and `.,!?-`, then trims. */
  function CleanText(isWord: char -> bool, text: string): (r: string)
    ensures IsClean(isWord, r)
  {
    var f := Filter(isWord, text);
    StripSpan(f);
    Strip(f)
  }

  /** `clean_text` only deletes characters: its output is a subsequence of its
      input, in the original order. */
  lemma CleanTextIsSubsequence(isWord: char -> bool, text: string)
    ensures IsSubseq(CleanText(isWord, text), text)
  {
    var f := Filter(isWord, text);
    StripIsSubsequence(f);
    SubseqTrans(Strip(f), f, text);
  }

  /** Every kept non-whitespace character survives, as often as it occurs. */
  lemma CleanTextKeepsContent(isWord: char -> bool, text: string, c: char)
    requires Kept(isWord, c) && !IsSpace(c)
    ensures multiset(CleanText(isWord, text))[c] == multiset(text)[c]
  {
    StripKeepsNonSpace(Filter(isWord, text), c);
  }

  /** The filter leaves a string of kept characters alone. */
  lemma {:induction false} FilterOfKept(isWord: char -> bool, s: string)
    requires forall i :: 0 <= i < |s| ==> Kept(isWord, s[i])
    ensures Filter(isWord, s) == s
    decreases |s|
  {
    if s != [] {
      FilterOfKept(isWord, s[1..]);
    }
  }

  /** Cleaning is the identity exactly on clean strings. */
  lemma {:induction false} CleanTextFixpoint(isWord: char -> bool, s: string)
    ensures CleanText(isWord, s) == s <==> IsClean(isWord, s)
  {
    if IsClean(isWord, s) {
      FilterOfKept(isWord, s);
      StripOfStripped(s);
    }
  }

  /** `clean_text(clean_text(t)) == clean_text(t)`. */
  lemma {:induction false} CleanTextIdempotent(isWord: char -> bool, text: string)
    ensures CleanText(isWord, CleanText(isWord, text)) == CleanText(isWord, text)
  {
    CleanTextFixpoint(isWord, CleanText(isWord, text));
  }
}
