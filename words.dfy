/** Python's `str.split()` with no arguments, and `len(s.split())` as a word
    count: the words of a string are its maximal runs of non-whitespace
    characters, and leading or trailing whitespace produces no word. */
module Words {

  /** The characters Python's `str.split()` treats as separators
      (those for which `str.isspace()` holds). */
  predicate IsSpace(c: char) {
    || ('\t' <= c <= '\r')
    || ('\U{1C}' <= c <= '\U{1F}')
    || c == ' '
    || c == '\U{85}'
    || c == '\U{A0}'
    || c == '\U{1680}'
    || ('\U{2000}' <= c <= '\U{200A}')
    || c == '\U{2028}'
    || c == '\U{2029}'
    || c == '\U{202F}'
    || c == '\U{205F}'
    || c == '\U{3000}'
  }

  predicate AllSpace(s: string) {
    forall i :: 0 <= i < |s| ==> IsSpace(s[i])
  }

  predicate NoSpace(s: string) {
    forall i :: 0 <= i < |s| ==> !IsSpace(s[i])
  }

  /** The number of whitespace characters at the start of `s`. */
  function LeadingSpace(s: string): (n: nat)
    ensures n <= |s| && AllSpace(s[..n])
    ensures n == |s| || !IsSpace(s[n])
  {
    if s == [] || !IsSpace(s[0]) then 0
    else
      var m := LeadingSpace(s[1..]);
      assert s[..m + 1] == [s[0]] + s[1..][..m];
      m + 1
  }

  /** The length of the longest prefix of `s` that holds no whitespace. */
  function WordLength(s: string): (n: nat)
    ensures n <= |s| && NoSpace(s[..n])
    ensures n == |s| || IsSpace(s[n])
  {
    if s == [] || IsSpace(s[0]) then 0
    else
      var m := WordLength(s[1..]);
      assert s[..m + 1] == [s[0]] + s[1..][..m];
      m + 1
  }

  /** Python's `s.split()`: the maximal runs of non-whitespace characters
      of `s`, in order. */
  function Split(s: string): (words: seq<string>)
    ensures forall i :: 0 <= i < |words| ==> words[i] != [] && NoSpace(words[i])
    decreases |s|
  {
    var t := s[LeadingSpace(s)..];
    if t == [] then []
    else
      var n := WordLength(t);
      [t[..n]] + Split(t[n..])
  }

  /** `len(s.split())`. */
  function WordCount(s: string): nat {
    |Split(s)|
  }

  /** The concatenation of a sequence of words. */
  function Flatten(words: seq<string>): string {
    if words == [] then [] else words[0] + Flatten(words[1..])
  }

  /** The non-whitespace characters of `s`, in order. */
  function NonSpace(s: string): string {
    if s == [] then []
    else (if IsSpace(s[0]) then [] else [s[0]]) + NonSpace(s[1..])
  }

  /** A word of `s` begins at index `i`: a non-whitespace character at the
      start of `s` or right after a whitespace character. */
  ghost predicate StartsAt(s: string, i: int)
    requires 0 <= i < |s|
  {
    !IsSpace(s[i]) && (i == 0 || IsSpace(s[i - 1]))
  }

  /** The indices at which the maximal non-whitespace runs of `s` begin. */
  ghost function WordStarts(s: string): set<int> {
    set i | 0 <= i < |s| && StartsAt(s, i)
  }

  // ---------------------------------------------------------------------
  // A left-to-right scan that counts word beginnings; it is the device the
  // proofs below use to reason about Split.

  /** The words that begin in `s` when the character just before `s` was
      part of a word exactly when `inWord` holds. */
  ghost function CountFrom(s: string, inWord: bool): nat {
    if s == [] then 0
    else if IsSpace(s[0]) then CountFrom(s[1..], false)
    else (if inWord then 0 else 1) + CountFrom(s[1..], true)
  }

  /** Whether the scan is inside a word after reading `s`. */
  ghost function EndsInWord(s: string, inWord: bool): bool {
    if s == [] then inWord else !IsSpace(s[|s| - 1])
  }

  lemma {:induction false} CountConcat(a: string, b: string, inWord: bool)
    ensures CountFrom(a + b, inWord) == CountFrom(a, inWord) + CountFrom(b, EndsInWord(a, inWord))
    decreases |a|
  {
    if a == [] {
      assert a + b == b;
    } else {
      assert (a + b)[0] == a[0];
      assert (a + b)[1..] == a[1..] + b;
      CountConcat(a[1..], b, !IsSpace(a[0]));
      if a[1..] == [] {
        assert EndsInWord(a[1..], !IsSpace(a[0])) == EndsInWord(a, inWord);
      } else {
        assert a[1..][|a[1..]| - 1] == a[|a| - 1];
      }
    }
  }

  lemma {:induction false} AllSpaceCount(s: string, inWord: bool)
    requires AllSpace(s)
    ensures CountFrom(s, inWord) == 0
    decreases |s|
  {
    if s != [] {
      AllSpaceCount(s[1..], false);
    }
  }

  lemma {:induction false} NoSpaceCount(s: string, inWord: bool)
    requires s != [] && NoSpace(s)
    ensures CountFrom(s, inWord) == if inWord then 0 else 1
    decreases |s|
  {
    if |s| > 1 {
      NoSpaceCount(s[1..], true);
    }
  }

  /** The length of Split agrees with the scan. */
  lemma {:induction false} SplitCount(s: string)
    ensures WordCount(s) == CountFrom(s, false)
    decreases |s|
  {
    var k := LeadingSpace(s);
    var sp, t := s[..k], s[k..];
    assert s == sp + t;
    CountConcat(sp, t, false);
    AllSpaceCount(sp, false);
    assert EndsInWord(sp, false) == false;
    if t != [] {
      var n := WordLength(t);
      var w, rest := t[..n], t[n..];
      assert t == w + rest;
      CountConcat(w, rest, false);
      NoSpaceCount(w, false);
      assert CountFrom(rest, true) == CountFrom(rest, false);
      SplitCount(rest);
    }
  }

  // ---------------------------------------------------------------------
  // Properties of the word count.

  lemma WordStartsSnoc(p: string, c: char)
    ensures WordStarts(p + [c]) == WordStarts(p) + (if StartsAt(p + [c], |p|) then {|p|} else {})
  {
    var s := p + [c];
    forall i | 0 <= i < |p| ensures StartsAt(s, i) <==> StartsAt(p, i) {
      assert s[i] == p[i];
      if i > 0 { assert s[i - 1] == p[i - 1]; }
    }
  }

  lemma {:induction false} CountIsWordStarts(s: string)
    ensures CountFrom(s, false) == |WordStarts(s)|
    decreases |s|
  {
    if s == [] {
      assert WordStarts(s) == {};
    } else {
      var n := |s| - 1;
      var p := s[..n];
      assert s == p + [s[n]];
      CountConcat(p, [s[n]], false);
      CountIsWordStarts(p);
      var e := EndsInWord(p, false);
      assert e == (n > 0 && !IsSpace(s[n - 1]));
      assert CountFrom([s[n]], e) == if StartsAt(s, n) then 1 else 0;
      WordStartsSnoc(p, s[n]);
      assert n !in WordStarts(p);
    }
  }

  /** The word count is the number of maximal non-whitespace runs, each
      counted at the index where it begins. */
  lemma WordCountIsWordStarts(s: string)
    ensures WordCount(s) == |WordStarts(s)|
  {
    SplitCount(s);
    CountIsWordStarts(s);
  }

  /** A string has no word exactly when it is empty or all whitespace. */
  lemma WordCountZeroIffAllSpace(s: string)
    ensures WordCount(s) == 0 <==> AllSpace(s)
  {
  }

  /** A single run of non-whitespace characters is one word. */
  lemma WordCountOfWord(w: string)
    requires w != [] && NoSpace(w)
    ensures WordCount(w) == 1
  {
    SplitCount(w);
    NoSpaceCount(w, false);
  }

  /** Leading and trailing whitespace do not change the count. */
  lemma {:induction false} WordCountIgnoresOuterSpace(lead: string, s: string, trail: string)
    requires AllSpace(lead) && AllSpace(trail)
    ensures WordCount(lead + s + trail) == WordCount(s)
  {
    SplitCount(lead + s + trail);
    SplitCount(s);
    CountConcat(lead + s, trail, false);
    AllSpaceCount(trail, EndsInWord(lead + s, false));
    CountConcat(lead, s, false);
    AllSpaceCount(lead, false);
    assert EndsInWord(lead, false) == false;
  }

  /** Words separated by whitespace add up. */
  lemma {:induction false} WordCountJoin(a: string, sep: string, b: string)
    requires sep != [] && AllSpace(sep)
    ensures WordCount(a + sep + b) == WordCount(a) + WordCount(b)
  {
    SplitCount(a + sep + b);
    SplitCount(a);
    SplitCount(b);
    CountConcat(a + sep, b, false);
    CountConcat(a, sep, false);
    AllSpaceCount(sep, EndsInWord(a, false));
    assert (a + sep)[|a + sep| - 1] == sep[|sep| - 1];
  }

  /** A prefix never holds more words than the whole string. */
  lemma {:induction false} WordCountPrefix(s: string, k: nat)
    requires k <= |s|
    ensures WordCount(s[..k]) <= WordCount(s)
  {
    SplitCount(s);
    SplitCount(s[..k]);
    assert s == s[..k] + s[k..];
    CountConcat(s[..k], s[k..], false);
  }

  lemma {:induction false} NonSpaceConcat(a: string, b: string)
    ensures NonSpace(a + b) == NonSpace(a) + NonSpace(b)
    decreases |a|
  {
    if a != [] {
      assert (a + b)[1..] == a[1..] + b;
      NonSpaceConcat(a[1..], b);
    } else {
      assert a + b == b;
    }
  }

  lemma {:induction false} NonSpaceOfSpace(s: string)
    requires AllSpace(s)
    ensures NonSpace(s) == []
    decreases |s|
  {
    if s != [] { NonSpaceOfSpace(s[1..]); }
  }

  lemma {:induction false} NonSpaceOfWord(s: string)
    requires NoSpace(s)
    ensures NonSpace(s) == s
    decreases |s|
  {
    if s != [] { NonSpaceOfWord(s[1..]); }
  }

  lemma NonSpaceSkipsLead(s: string)
    ensures NonSpace(s) == NonSpace(s[LeadingSpace(s)..])
  {
    var k := LeadingSpace(s);
    assert s == s[..k] + s[k..];
    NonSpaceConcat(s[..k], s[k..]);
    NonSpaceOfSpace(s[..k]);
  }

  lemma NonSpaceTakesWord(t: string)
    ensures NonSpace(t) == t[..WordLength(t)] + NonSpace(t[WordLength(t)..])
  {
    var n := WordLength(t);
    assert t == t[..n] + t[n..];
    NonSpaceConcat(t[..n], t[n..]);
    NonSpaceOfWord(t[..n]);
  }

  lemma FlattenCons(w: string, words: seq<string>)
    ensures Flatten([w] + words) == w + Flatten(words)
  {
    assert ([w] + words)[1..] == words;
  }

  /** The words Split returns, put back together, are exactly the
      non-whitespace characters of the input, in their order: splitting
      drops whitespace and nothing else. */
  lemma {:induction false} SplitKeepsNonSpace(s: string)
    ensures Flatten(Split(s)) == NonSpace(s)
    decreases |s|
  {
    var t := s[LeadingSpace(s)..];
    NonSpaceSkipsLead(s);
    if t != [] {
      var n := WordLength(t);
      NonSpaceTakesWord(t);
      SplitKeepsNonSpace(t[n..]);
      FlattenCons(t[..n], Split(t[n..]));
    }
  }
}
