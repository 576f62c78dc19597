/** The string functions of the Go standard library that the repository leans on. */
module Text {
  import opened Wrappers

  /** Unicode white space, as unicode.IsSpace has it. */
  predicate IsSpace(c: char) {
    || '\t' <= c <= '\r' || c == ' ' || c == '\U{0085}' || c == '\U{00A0}' || c == '\U{1680}'
    || '\U{2000}' <= c <= '\U{200A}' || c == '\U{2028}' || c == '\U{2029}' || c == '\U{202F}'
    || c == '\U{205F}' || c == '\U{3000}'
  }

  /** A non-empty string without white space. */
  predicate IsWord(s: string) {
    s != "" && forall i :: 0 <= i < |s| ==> !IsSpace(s[i])
  }

  function WordLength(s: string): (n: nat)
    ensures n <= |s|
    ensures forall i :: 0 <= i < n ==> !IsSpace(s[i])
    ensures n < |s| ==> IsSpace(s[n])
  {
    if s == "" || IsSpace(s[0]) then 0 else 1 + WordLength(s[1..])
  }

  /** strings.Fields: the words between runs of white space. */
  function Fields(s: string): seq<string> {
    if s == "" then []
    else if IsSpace(s[0]) then Fields(s[1..])
    else [s[..WordLength(s)]] + Fields(s[WordLength(s)..])
  }

  /** strings.Join with a single space. */
  function Join(xs: seq<string>): string {
    if xs == [] then ""
    else if |xs| == 1 then xs[0]
    else xs[0] + " " + Join(xs[1..])
  }

  lemma {:induction false} JoinAppend(xs: seq<string>, x: string)
    ensures Join(xs + [x]) == if xs == [] then x else Join(xs) + " " + x
  {
    if xs != [] {
      assert (xs + [x])[1..] == xs[1..] + [x];
      JoinAppend(xs[1..], x);
    }
  }

  /** The words of all these strings, in order. */
  function AllFields(xs: seq<string>): seq<string> {
    if xs == [] then [] else Fields(xs[0]) + AllFields(xs[1..])
  }

  lemma {:induction false} FieldsAreWords(s: string)
    ensures forall i :: 0 <= i < |Fields(s)| ==> IsWord(Fields(s)[i])
  {
    if s != "" {
      FieldsAreWords(if IsSpace(s[0]) then s[1..] else s[WordLength(s)..]);
    }
  }

  lemma {:induction false} WordLengthBefore(a: string, b: string)
    requires b == "" || IsSpace(b[0])
    ensures WordLength(a + b) == WordLength(a)
  {
    if a == "" {
      assert a + b == b;
    } else if !IsSpace(a[0]) {
      assert (a + b)[1..] == a[1..] + b;
      WordLengthBefore(a[1..], b);
    }
  }

  /** A space splits the words on either side of it. */
  lemma {:induction false} FieldsSplit(a: string, b: string)
    requires b != "" && IsSpace(b[0])
    ensures Fields(a + b) == Fields(a) + Fields(b[1..])
    decreases |a|
  {
    if a == "" {
      assert a + b == b;
    } else if IsSpace(a[0]) {
      assert (a + b)[1..] == a[1..] + b;
      FieldsSplit(a[1..], b);
    } else {
      var n := WordLength(a);
      WordLengthBefore(a, b);
      assert (a + b)[..n] == a[..n] && (a + b)[n..] == a[n..] + b;
      FieldsSplit(a[n..], b);
    }
  }

  lemma {:induction false} FieldsOfJoin(xs: seq<string>)
    ensures Fields(Join(xs)) == AllFields(xs)
  {
    if |xs| == 1 {
      assert AllFields(xs[1..]) == [];
    } else if xs != [] {
      FieldsOfJoin(xs[1..]);
      var rest := " " + Join(xs[1..]);
      assert Join(xs) == xs[0] + rest && rest[1..] == Join(xs[1..]);
      FieldsSplit(xs[0], rest);
    }
  }

  lemma {:induction false} FieldsOfWord(s: string)
    requires IsWord(s)
    ensures Fields(s) == [s]
  {
    assert WordLength(s) == |s|;
    assert s[..|s|] == s && Fields(s[|s|..]) == [];
  }

  lemma {:induction false} AllFieldsOfWords(xs: seq<string>)
    requires forall i :: 0 <= i < |xs| ==> IsWord(xs[i])
    ensures AllFields(xs) == xs
  {
    if xs != [] {
      FieldsOfWord(xs[0]);
      AllFieldsOfWords(xs[1..]);
    }
  }

  lemma {:induction false} AllFieldsAreWords(xs: seq<string>)
    ensures forall i :: 0 <= i < |AllFields(xs)| ==> IsWord(AllFields(xs)[i])
  {
    if xs != [] {
      FieldsAreWords(xs[0]);
      AllFieldsAreWords(xs[1..]);
    }
  }

  /** A list of scopes survives being joined and split exactly if each of them is a word. */
  lemma JoinFieldsRoundTrip(xs: seq<string>)
    ensures Fields(Join(xs)) == xs <==> forall i :: 0 <= i < |xs| ==> IsWord(xs[i])
  {
    FieldsOfJoin(xs);
    AllFieldsAreWords(xs);
    if forall i :: 0 <= i < |xs| ==> IsWord(xs[i]) {
      AllFieldsOfWords(xs);
    }
  }

  /** strings.TrimSpace. */
  function TrimLeft(s: string): string {
    if s != "" && IsSpace(s[0]) then TrimLeft(s[1..]) else s
  }

  function TrimRight(s: string): string {
    if s != "" && IsSpace(s[|s| - 1]) then TrimRight(s[..|s| - 1]) else s
  }

  function TrimSpace(s: string): string {
    TrimRight(TrimLeft(s))
  }

  predicate IsBlank(s: string) {
    forall i :: 0 <= i < |s| ==> IsSpace(s[i])
  }

  /** No white space at either end. */
  predicate IsTrimmed(s: string) {
    s != "" ==> !IsSpace(s[0]) && !IsSpace(s[|s| - 1])
  }

  lemma {:induction false} TrimLeftSplits(s: string) returns (blank: string)
    ensures s == blank + TrimLeft(s) && IsBlank(blank)
    ensures TrimLeft(s) != "" ==> !IsSpace(TrimLeft(s)[0])
  {
    if s != "" && IsSpace(s[0]) {
      var rest := TrimLeftSplits(s[1..]);
      blank := [s[0]] + rest;
      assert s == [s[0]] + s[1..];
    } else {
      blank := "";
    }
  }

  lemma {:induction false} TrimRightSplits(s: string) returns (blank: string)
    ensures s == TrimRight(s) + blank && IsBlank(blank)
    ensures TrimRight(s) != "" ==> TrimRight(s)[0] == s[0] && !IsSpace(TrimRight(s)[|TrimRight(s)| - 1])
  {
    if s != "" && IsSpace(s[|s| - 1]) {
      var rest := TrimRightSplits(s[..|s| - 1]);
      blank := rest + [s[|s| - 1]];
      assert s == s[..|s| - 1] + [s[|s| - 1]];
    } else {
      blank := "";
    }
  }

  lemma {:induction false} TrimLeftBehind(blank: string, s: string)
    requires IsBlank(blank)
    ensures TrimLeft(blank + s) == TrimLeft(s)
  {
    if blank == "" {
      assert blank + s == s;
    } else {
      assert (blank + s)[1..] == blank[1..] + s;
      TrimLeftBehind(blank[1..], s);
    }
  }

  lemma {:induction false} TrimRightBefore(s: string, blank: string)
    requires IsBlank(blank)
    ensures TrimRight(s + blank) == TrimRight(s)
  {
    if blank == "" {
      assert s + blank == s;
    } else {
      assert (s + blank)[..|s + blank| - 1] == s + blank[..|blank| - 1];
      TrimRightBefore(s, blank[..|blank| - 1]);
    }
  }

  /** Trimming takes all white space off either end, and nothing else. */
  lemma TrimIff(s: string, t: string)
    ensures TrimSpace(s) == t <==>
            IsTrimmed(t) && exists a, b :: s == a + (t + b) && IsBlank(a) && IsBlank(b)
  {
    if TrimSpace(s) == t {
      var a := TrimLeftSplits(s);
      var b := TrimRightSplits(TrimLeft(s));
      assert s == a + (t + b);
    }
    forall a, b | IsTrimmed(t) && s == a + (t + b) && IsBlank(a) && IsBlank(b)
      ensures TrimSpace(s) == t
    {
      TrimLeftBehind(a, t + b);
      if t == "" {
        assert t + b == b + "";
        TrimLeftBehind(b, "");
      } else {
        TrimRightBefore(t, b);
      }
    }
  }

  /** The index of the first occurrence of c, or the length of s. */
  function IndexOf(s: string, c: char): (n: nat)
    ensures n <= |s| && c !in s[..n] && (n < |s| ==> s[n] == c)
  {
    if s == "" || s[0] == c then 0 else 1 + IndexOf(s[1..], c)
  }

  /** What stands before and behind the first c, if there is one; strings.SplitN with 2. */
  function CutAt(s: string, c: char): Option<(string, string)> {
    var n := IndexOf(s, c);
    if n == |s| then None else Some((s[..n], s[n + 1..]))
  }

  lemma CutIff(s: string, c: char, front: string, rest: string)
    ensures CutAt(s, c) == Some((front, rest)) <==> s == front + [c] + rest && c !in front
  {
    var n := IndexOf(s, c);
    if n < |s| {
      assert s == s[..n] + [c] + s[n + 1..];
    }
    if s == front + [c] + rest && c !in front {
      assert s[|front|] == c && s[..|front|] == front && s[|front| + 1..] == rest;
      assert forall i :: 0 <= i < |front| ==> s[i] == front[i] != c;
      assert forall i :: 0 <= i < n ==> s[i] == s[..n][i] != c;
      assert n == |front|;
    }
  }

  /** Simple case folding of the ASCII letters and of the two letters outside ASCII that fold to one of them. */
  function Fold(c: char): char {
    if 'A' <= c <= 'Z' then c - 'A' + 'a'
    else if c == '\U{017F}' then 's'
    else if c == '\U{212A}' then 'k'
    else c
  }

  predicate EqualFold(a: string, b: string) {
    |a| == |b| && forall i :: 0 <= i < |a| ==> Fold(a[i]) == Fold(b[i])
  }

  /** The two authentication schemes, in either case. */
  lemma SchemeWords(word: string)
    ensures EqualFold(word, "Bearer") <==>
            && |word| == 6
            && word[0] in "bB" && word[1] in "eE" && word[2] in "aA" && word[3] in "rR" && word[4] in "eE"
            && word[5] in "rR"
    ensures EqualFold(word, "DPoP") <==>
            |word| == 4 && word[0] in "dD" && word[1] in "pP" && word[2] in "oO" && word[3] in "pP"
  {
  }
}
