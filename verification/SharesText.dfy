/**
 The text side of searching shared files: words, search term patterns and paths. The alphabet is ASCII, so a
 word character is a letter, a digit or an underscore, and case is a matter of the letters A to Z.
 */
module SharesText {

  predicate IsAlnum(c: char)
  {
    'a' <= c <= 'z' || 'A' <= c <= 'Z' || '0' <= c <= '9'
  }

  predicate AllAlnum(s: string)
  {
    forall i :: 0 <= i < |s| ==> IsAlnum(s[i])
  }

  function LowerChar(c: char): (r: char)
    ensures IsAlnum(r) <==> IsAlnum(c)
  {
    if 'A' <= c <= 'Z' then c - 'A' + 'a' else c
  }

  function Lower(s: string): (r: string)
    ensures |r| == |s| && forall i :: 0 <= i < |s| ==> r[i] == LowerChar(s[i])
  {
    seq(|s|, i requires 0 <= i < |s| => LowerChar(s[i]))
  }

  const LOWER_CASE := "abcdefghijklmnopqrstuvwxyz"
  const UPPER_CASE := "ABCDEFGHIJKLMNOPQRSTUVWXYZ"
  const DIGITS := "0123456789"

  lemma InARow()
    ensures forall i :: 0 <= i < 26 ==> LOWER_CASE[i] as int == 97 + i && UPPER_CASE[i] as int == 65 + i
    ensures forall i :: 0 <= i < 10 ==> DIGITS[i] as int == 48 + i
  {
  }

  /** What letters and digits are */
  lemma AlnumIs(c: char)
    ensures IsAlnum(c) <==> c in LOWER_CASE || c in UPPER_CASE || c in DIGITS
  {
    InARow();
    var n := c as int;
    if 97 <= n < 123 {
      assert LOWER_CASE[n - 97] == c;
    } else if 65 <= n < 91 {
      assert UPPER_CASE[n - 65] == c;
    } else if 48 <= n < 58 {
      assert DIGITS[n - 48] == c;
    }
  }

  /** What lower case makes of a letter, and of any other character */
  lemma LowerIs(k: nat, c: char)
    requires k < 26 && c !in UPPER_CASE
    ensures Lower([UPPER_CASE[k]]) == [LOWER_CASE[k]] && Lower([c]) == [c]
  {
    InARow();
    InUpperCase(c);
  }

  lemma InUpperCase(c: char)
    ensures 'A' <= c <= 'Z' ==> c in UPPER_CASE
  {
    InARow();
    if 'A' <= c <= 'Z' {
      assert UPPER_CASE[c as int - 65] == c;
    }
  }

  // ---------------------------------------------------------------- words

  /** re.split at every character that is not a letter or digit; word is what has been read of a piece. */
  function SplitFrom(s: string, word: string): (r: seq<string>)
    ensures r != []
    decreases |s|
  {
    if s == [] then [word]
    else if IsAlnum(s[0]) then SplitFrom(s[1..], word + [s[0]])
    else [word] + SplitFrom(s[1..], [])
  }

  function Pieces(s: string): (r: seq<string>)
    ensures r != []
  {
    SplitFrom(s, [])
  }

  function NonEmpty(pieces: seq<string>): set<string>
  {
    set t | t in pieces && t != []
  }

  /** The terms an item is indexed by, or a search term is looked up by. */
  function Words(s: string): set<string>
  {
    NonEmpty(Pieces(s))
  }

  predicate LeftEnd(s: string, p: nat)
  {
    p <= |s| && (p == 0 || !IsAlnum(s[p - 1]))
  }

  predicate RightEnd(s: string, p: nat)
  {
    p <= |s| && (p == |s| || !IsAlnum(s[p]))
  }

  /** t is a maximal run of letters and digits at p. */
  predicate WordAt(s: string, p: nat, t: string)
  {
    && t != [] && AllAlnum(t) && p + |t| <= |s| && s[p..p + |t|] == t
    && LeftEnd(s, p) && RightEnd(s, p + |t|)
  }

  ghost predicate HasWord(s: string, t: string)
  {
    exists p: nat :: WordAt(s, p, t)
  }

  lemma RunIsWhole(run: string, c: char, rest: string, p: nat, t: string)
    requires AllAlnum(run) && !IsAlnum(c) && WordAt(run + [c] + rest, p, t) && p <= |run|
    ensures t == run
  {
    var s := run + [c] + rest;
    assert s[..|run|] == run && s[|run|] == c;
    assert forall i :: p <= i < p + |t| ==> s[i] == t[i - p] && IsAlnum(s[i]);
    assert forall i :: 0 <= i < |run| ==> s[i] == run[i];
  }

  /** A word further on is a word of the rest. */
  lemma WordBehind(front: string, rest: string, p: nat, t: string)
    requires front != [] && !IsAlnum(front[|front| - 1]) && p + |t| <= |rest|
    ensures WordAt(front + rest, |front| + p, t) <==> WordAt(rest, p, t)
  {
    var s := front + rest;
    assert s[|front| + p..|front| + p + |t|] == rest[p..p + |t|];
    assert p > 0 ==> s[|front| + p - 1] == rest[p - 1];
    assert p + |t| < |rest| ==> s[|front| + p + |t|] == rest[p + |t|];
  }

  lemma WordOfWhole(run: string, c: char, rest: string, p: nat, t: string)
    requires AllAlnum(run) && !IsAlnum(c) && WordAt(run + [c] + rest, p, t)
    ensures t == run || HasWord(rest, t)
  {
    var n := |run + [c]|;
    if p < n {
      RunIsWhole(run, c, rest, p, t);
    } else {
      WordBehind(run + [c], rest, p - n, t);
    }
  }

  lemma RunIsWord(run: string, c: char, rest: string)
    requires AllAlnum(run) && !IsAlnum(c) && run != []
    ensures WordAt(run + [c] + rest, 0, run)
  {
    var s := run + [c] + rest;
    assert s[..|run|] == run && s[|run|] == c;
  }

  /** In front of a character that is no letter or digit, the first run is the only word. */
  lemma WordsAround(run: string, c: char, rest: string, t: string)
    requires AllAlnum(run) && !IsAlnum(c)
    ensures HasWord(run + [c] + rest, t) <==> (t != [] && t == run) || HasWord(rest, t)
  {
    if p: nat :| WordAt(run + [c] + rest, p, t) {
      WordOfWhole(run, c, rest, p, t);
    }
    if t != [] && t == run {
      RunIsWord(run, c, rest);
    }
    if p: nat :| WordAt(rest, p, t) {
      WordBehind(run + [c], rest, p, t);
    }
  }

  lemma OnlyWord(run: string, t: string)
    requires AllAlnum(run)
    ensures HasWord(run, t) <==> t != [] && t == run
  {
    if p: nat :| WordAt(run, p, t) {
      assert p == 0;
      assert |t| == |run|;
    }
    if t != [] && t == run {
      assert WordAt(run, 0, t);
    }
  }

  lemma {:induction false} SplitFindsWords(s: string, word: string, t: string)
    requires AllAlnum(word)
    ensures t in NonEmpty(SplitFrom(s, word)) <==> HasWord(word + s, t)
    decreases |s|
  {
    if s == [] {
      assert word + s == word;
      OnlyWord(word, t);
    } else if IsAlnum(s[0]) {
      assert word + [s[0]] + s[1..] == word + s;
      SplitFindsWords(s[1..], word + [s[0]], t);
    } else {
      assert word + [s[0]] + s[1..] == word + s;
      WordsAround(word, s[0], s[1..], t);
      SplitFindsWords(s[1..], [], t);
      assert [] + s[1..] == s[1..];
    }
  }

  /** Splitting finds exactly the maximal runs. */
  lemma WordsAreRuns(s: string, t: string)
    ensures t in Words(s) <==> HasWord(s, t)
  {
    assert [] + s == s;
    SplitFindsWords(s, [], t);
  }

  // ---------------------------------------------------------------- search term patterns

  /** Where the pattern of a plain term matches: the term, between characters that are no letters or digits. */
  predicate FoundAt(s: string, term: string, p: nat)
  {
    p + |term| <= |s| && s[p..p + |term|] == term && LeftEnd(s, p) && RightEnd(s, p + |term|)
  }

  /** create_term_pattern without wildcard, searched in a text in lower case */
  predicate Found(s: string, term: string)
  {
    exists p :: 0 <= p <= |s| && FoundAt(s, term, p)
  }

  /** Where the pattern of a wildcard term matches: letters and digits from p to q, then the term. */
  predicate FoundWildAt(s: string, term: string, p: nat, q: nat)
  {
    p <= q && q + |term| <= |s| && LeftEnd(s, p) && AllAlnum(s[p..q]) && s[q..q + |term|] == term && RightEnd(s, q + |term|)
  }

  /** create_term_pattern with wildcard */
  predicate FoundWild(s: string, term: string)
  {
    exists p, q :: 0 <= p <= q <= |s| && FoundWildAt(s, term, p, q)
  }

  /** Nothing, or something that ends, or begins, with a character that is no letter or digit */
  predicate EndsOff(a: string)
  {
    a == [] || !IsAlnum(a[|a| - 1])
  }

  predicate BeginsOff(b: string)
  {
    b == [] || !IsAlnum(b[0])
  }

  /** A term is found exactly where it stands between characters that are no letters or digits, anywhere. */
  lemma FoundExactly(s: string, term: string)
    ensures Found(s, term) <==> exists a, b :: s == a + term + b && EndsOff(a) && BeginsOff(b)
  {
    if Found(s, term) {
      var p :| 0 <= p <= |s| && FoundAt(s, term, p);
      var a, b := s[..p], s[p + |term|..];
      assert s == a + term + b && EndsOff(a) && BeginsOff(b);
    }
    forall a, b | s == a + term + b && EndsOff(a) && BeginsOff(b) ensures Found(s, term) {
      assert s[|a|..|a| + |term|] == term;
      assert FoundAt(s, term, |a|);
    }
  }

  /** A wildcard term is found exactly where it stands so with any letters and digits in front. */
  lemma FoundWildExactly(s: string, term: string)
    ensures FoundWild(s, term) <==> exists a, w, b :: s == a + w + term + b && AllAlnum(w) && EndsOff(a) && BeginsOff(b)
  {
    if FoundWild(s, term) {
      var p, q :| 0 <= p <= q <= |s| && FoundWildAt(s, term, p, q);
      var a, w, b := s[..p], s[p..q], s[q + |term|..];
      assert s == a + w + term + b && AllAlnum(w) && EndsOff(a) && BeginsOff(b);
    }
    forall a, w, b | s == a + w + term + b && AllAlnum(w) && EndsOff(a) && BeginsOff(b) ensures FoundWild(s, term) {
      assert s[|a|..|a + w|] == w && s[|a + w|..|a + w| + |term|] == term;
      assert FoundWildAt(s, term, |a|, |a + w|);
    }
  }

  /** For a term that is a word, being found and being one of the words are the same. */
  lemma WordIsFound(s: string, w: string)
    requires w != [] && AllAlnum(w)
    ensures Found(s, w) <==> HasWord(s, w)
  {
    forall p: nat | WordAt(s, p, w) ensures FoundAt(s, w, p) {}
    forall p: nat | FoundAt(s, w, p) ensures WordAt(s, p, w) {}
  }

  lemma SliceOfSlice(s: string, p: nat, term: string, q: nat, n: nat)
    requires p + |term| <= |s| && s[p..p + |term|] == term && q + n <= |term|
    ensures s[p + q..p + q + n] == term[q..q + n]
  {
    var inner, outer := s[p + q..p + q + n], term[q..q + n];
    forall i | 0 <= i < n ensures inner[i] == outer[i] {
      assert s[p..p + |term|][q + i] == term[q + i];
    }
  }

  /** A word inside a term that is found at p, whose left end is within the term or that of the term. */
  lemma WordInside(s: string, term: string, p: nat, q: nat, t: string)
    requires p + |term| <= |s| && s[p..p + |term|] == term && RightEnd(s, p + |term|)
    requires WordAt(term, q, t) && (q == 0 ==> LeftEnd(s, p))
    ensures WordAt(s, p + q, t)
  {
    SliceOfSlice(s, p, term, q, |t|);
    assert q > 0 ==> s[p + q - 1] == term[q - 1];
    assert q + |t| < |term| ==> s[p + q + |t|] == term[q + |t|];
  }

  /** A text in which a term is found has all the words of the term. */
  lemma FoundHasWords(s: string, term: string, t: string)
    requires Found(s, term) && t in Words(term)
    ensures t in Words(s)
  {
    WordsAreRuns(term, t);
    WordsAreRuns(s, t);
    var p :| 0 <= p <= |s| && FoundAt(s, term, p);
    var q: nat :| WordAt(term, q, t);
    WordInside(s, term, p, q, t);
  }

  predicate EndsWith(s: string, end: string)
  {
    |end| <= |s| && s[|s| - |end|..] == end
  }

  /** The pieces of a term after the first, and the first one, up to which letters and digits may come before. */
  function Rest(term: string): set<string>
  {
    NonEmpty(Pieces(term)[1..])
  }

  function First(term: string): string
  {
    Pieces(term)[0]
  }

  /** The first piece is what comes before the first character that is no letter or digit. */
  lemma {:induction false} FirstPiece(s: string, word: string) returns (n: nat)
    requires AllAlnum(word)
    ensures n <= |s| && SplitFrom(s, word)[0] == word + s[..n] && AllAlnum(s[..n]) && RightEnd(s, n)
    ensures if n == |s| then SplitFrom(s, word)[1..] == [] else SplitFrom(s, word)[1..] == Pieces(s[n + 1..])
    decreases |s|
  {
    n := 0;
    if s == [] {
      assert word + s[..0] == word;
    } else if IsAlnum(s[0]) {
      var m := FirstPiece(s[1..], word + [s[0]]);
      n := m + 1;
      assert word + [s[0]] + s[1..][..m] == word + s[..n];
      assert s[..n] == [s[0]] + s[1..][..m];
      assert s[1..][m..] == s[n..];
      assert n < |s| ==> s[1..][m + 1..] == s[n + 1..];
    } else {
      assert word + s[..0] == word;
    }
  }

  /** The words after the first piece have a left end within the term. */
  lemma RestIsInside(term: string, t: string) returns (q: nat)
    requires t in Rest(term)
    ensures q > 0 && WordAt(term, q, t)
  {
    var n := FirstPiece(term, []);
    var behind := term[n + 1..];
    WordsAreRuns(behind, t);
    var p: nat :| WordAt(behind, p, t);
    assert term == term[..n + 1] + behind;
    WordBehind(term[..n + 1], behind, p, t);
    q := n + 1 + p;
  }

  lemma FoundWildHasRest(s: string, term: string, t: string)
    requires FoundWild(s, term) && t in Rest(term)
    ensures t in Words(s)
  {
    var p, q :| 0 <= p <= q <= |s| && FoundWildAt(s, term, p, q);
    var k := RestIsInside(term, t);
    WordInside(s, term, q, k, t);
    WordsAreRuns(s, t);
  }

  lemma WildWord(s: string, term: string, p: nat, q: nat, n: nat)
    requires FoundWildAt(s, term, p, q) && 0 < n <= |term| && AllAlnum(term[..n]) && RightEnd(term, n)
    ensures WordAt(s, p, s[p..q + n]) && s[p..q + n] == s[p..q] + term[..n]
  {
    SliceOfSlice(s, q, term, 0, n);
    var w := s[p..q + n];
    assert w == s[p..q] + s[q..q + n];
    assert n < |term| ==> s[q + n] == term[n];
  }

  /** A text in which a wildcard term is found has a word that ends with the first piece. */
  lemma FoundWildHasFirst(s: string, term: string) returns (w: string)
    requires FoundWild(s, term) && First(term) != []
    ensures w in Words(s) && EndsWith(w, First(term))
  {
    var p, q :| 0 <= p <= q <= |s| && FoundWildAt(s, term, p, q);
    var n := FirstPiece(term, []);
    assert [] + term[..n] == term[..n];
    WildWord(s, term, p, q, n);
    w := s[p..q + n];
    WordsAreRuns(s, w);
  }

  /** A term with a letter or digit in it has a word. */
  lemma {:induction false} AlnumMakesWord(s: string, word: string, i: nat)
    requires AllAlnum(word) && (word != [] || (i < |s| && IsAlnum(s[i])))
    ensures NonEmpty(SplitFrom(s, word)) != {}
    decreases |s|
  {
    if s == [] {
      assert word in NonEmpty(SplitFrom(s, word));
    } else if IsAlnum(s[0]) {
      AlnumMakesWord(s[1..], word + [s[0]], 0);
    } else if word != [] {
      assert word in NonEmpty(SplitFrom(s, word));
    } else {
      AlnumMakesWord(s[1..], [], i - 1);
      assert SplitFrom(s, word) == [word] + SplitFrom(s[1..], []);
    }
  }

  // ---------------------------------------------------------------- paths

  predicate IsSeparator(c: char)
  {
    c == '/' || c == '\\'
  }

  /** re.sub of every run of separators by one backslash */
  function Collapse(s: string): string
    decreases |s|
  {
    if s == [] then []
    else if IsSeparator(s[0]) then ['\\'] + Collapse(AfterSeparators(s))
    else [s[0]] + Collapse(s[1..])
  }

  function AfterSeparators(s: string): (r: string)
    ensures |r| <= |s| && (s != [] && IsSeparator(s[0]) ==> |r| < |s|)
  {
    if s != [] && IsSeparator(s[0]) then AfterSeparators(s[1..]) else s
  }

  function StripSeparators(s: string): string
  {
    if s != [] && IsSeparator(s[|s| - 1]) then StripSeparators(s[..|s| - 1]) else s
  }

  /** normalize_remote_path */
  function Normalize(path: string): string
  {
    StripSeparators(Collapse(path))
  }

  /** os.path.join */
  function Join(dir: string, name: string): string
  {
    if name != [] && name[0] == '/' then name
    else if dir == [] || dir[|dir| - 1] == '/' then dir + name
    else dir + "/" + name
  }

  predicate NoSeparators(s: string)
  {
    forall i :: 0 <= i < |s| ==> s[i] != '/' && s[i] != '\\'
  }

  predicate AllSeparators(s: string)
  {
    forall i :: 0 <= i < |s| ==> s[i] == '/' || s[i] == '\\'
  }

  lemma {:induction false} AfterAllSeparators(seps: string, rest: string)
    requires AllSeparators(seps) && (rest == [] || NoSeparators([rest[0]]))
    ensures AfterSeparators(seps + rest) == rest
    decreases |seps|
  {
    if seps == [] {
      assert seps + rest == rest;
      assert rest != [] ==> [rest[0]][0] == rest[0];
    } else {
      assert (seps + rest)[0] == seps[0] && (seps + rest)[1..] == seps[1..] + rest;
      AfterAllSeparators(seps[1..], rest);
    }
  }

  /** A run of separators of either kind becomes one backslash. */
  lemma {:induction false} CollapseRun(a: string, seps: string, rest: string)
    requires NoSeparators(a) && seps != [] && AllSeparators(seps) && (rest == [] || NoSeparators([rest[0]]))
    ensures Collapse(a + seps + rest) == a + "\\" + Collapse(rest)
    decreases |a|
  {
    if a == [] {
      assert a + seps + rest == seps + rest && (seps + rest)[0] == seps[0];
      AfterAllSeparators(seps, rest);
    } else {
      assert (a + seps + rest)[0] == a[0] && (a + seps + rest)[1..] == a[1..] + seps + rest;
      CollapseRun(a[1..], seps, rest);
      assert [a[0]] + (a[1..] + "\\" + Collapse(rest)) == a + "\\" + Collapse(rest);
    }
  }

  lemma {:induction false} CollapseNone(a: string)
    requires NoSeparators(a)
    ensures Collapse(a) == a
    decreases |a|
  {
    if a != [] {
      CollapseNone(a[1..]);
    }
  }

  /** Separators at the end are dropped. */
  lemma {:induction false} StripEnd(a: string, seps: string)
    requires AllSeparators(seps) && (a == [] || NoSeparators([a[|a| - 1]]))
    ensures StripSeparators(a + seps) == a
    decreases |seps|
  {
    if seps == [] {
      assert a + seps == a;
      assert a != [] ==> [a[|a| - 1]][0] == a[|a| - 1];
    } else {
      assert (a + seps)[..|a + seps| - 1] == a + seps[..|seps| - 1];
      assert (a + seps)[|a + seps| - 1] == seps[|seps| - 1];
      StripEnd(a, seps[..|seps| - 1]);
    }
  }

  /** A directory and a name, with any separators between and behind, become directory, backslash and name. */
  lemma NormalizedPath(dir: string, between: string, name: string, behind: string)
    requires NoSeparators(dir) && NoSeparators(name) && name != []
    requires between != [] && AllSeparators(between) && AllSeparators(behind)
    ensures Normalize(dir + between + (name + behind)) == dir + "\\" + name
  {
    assert (name + behind)[0] == name[0];
    CollapseRun(dir, between, name + behind);
    var path := dir + "\\" + name;
    assert [path[|path| - 1]] == [name[|name| - 1]];
    if behind == [] {
      assert name + behind == name;
      CollapseNone(name);
      StripEnd(path, []);
      assert path + [] == path;
    } else {
      assert name + behind == name + behind + [];
      CollapseRun(name, behind, []);
      assert dir + "\\" + (name + "\\" + []) == path + "\\";
      StripEnd(path, "\\");
    }
  }

  lemma LowerParts(a: string, b: string)
    ensures Lower(a + b) == Lower(a) + Lower(b)
  {
  }

  lemma LowerTail(s: string)
    requires s != []
    ensures Lower(s)[1..] == Lower(s[1..]) && Lower(s)[0] == LowerChar(s[0])
  {
  }

  lemma SplitCons(c: char, s: string, word: string)
    ensures SplitFrom([c] + s, word) == if IsAlnum(c) then SplitFrom(s, word + [c]) else [word] + SplitFrom(s, [])
  {
    assert ([c] + s)[1..] == s;
  }

  lemma NonEmptyCons(word: string, pieces: seq<string>)
    ensures NonEmpty([word] + pieces) == (if word == [] then {} else {word}) + NonEmpty(pieces)
  {
  }

  /** Separators between words make no difference. */
  lemma {:induction false} AfterSeparatorsWords(s: string)
    ensures Words(Lower(AfterSeparators(s))) == Words(Lower(s))
    decreases |s|
  {
    if s != [] && IsSeparator(s[0]) {
      AfterSeparatorsWords(s[1..]);
      LowerTail(s);
      NonEmptyCons([], Pieces(Lower(s[1..])));
    }
  }

  lemma {:induction false} CollapseWords(s: string, word: string)
    ensures NonEmpty(SplitFrom(Lower(Collapse(s)), word)) == NonEmpty(SplitFrom(Lower(s), word))
    decreases |s|
  {
    if s != [] {
      LowerTail(s);
      if IsSeparator(s[0]) {
        var rest := AfterSeparators(s);
        CollapseWords(rest, []);
        LowerParts(['\\'], Collapse(rest));
        SplitCons('\\', Lower(Collapse(rest)), word);
        NonEmptyCons(word, Pieces(Lower(Collapse(rest))));
        NonEmptyCons(word, Pieces(Lower(s[1..])));
        AfterSeparatorsWords(s[1..]);
      } else {
        LowerParts([s[0]], Collapse(s[1..]));
        SplitCons(LowerChar(s[0]), Lower(Collapse(s[1..])), word);
        if IsAlnum(s[0]) {
          CollapseWords(s[1..], word + [LowerChar(s[0])]);
        } else {
          CollapseWords(s[1..], []);
          NonEmptyCons(word, Pieces(Lower(Collapse(s[1..]))));
          NonEmptyCons(word, Pieces(Lower(s[1..])));
        }
      }
    }
  }

  /** Around a character that is no letter or digit the words are those of both sides. */
  lemma {:induction false} WordsApart(a: string, c: char, b: string, word: string)
    requires !IsAlnum(c)
    ensures NonEmpty(SplitFrom(a + [c] + b, word)) == NonEmpty(SplitFrom(a, word)) + Words(b)
    decreases |a|
  {
    if a == [] {
      assert a + [c] + b == [c] + b;
      SplitCons(c, b, word);
      NonEmptyCons(word, Pieces(b));
      NonEmptyCons(word, []);
      assert [word] + [] == [word];
    } else {
      assert a + [c] + b == [a[0]] + (a[1..] + [c] + b);
      SplitCons(a[0], a[1..] + [c] + b, word);
      if IsAlnum(a[0]) {
        WordsApart(a[1..], c, b, word + [a[0]]);
      } else {
        WordsApart(a[1..], c, b, []);
        NonEmptyCons(word, Pieces(a[1..] + [c] + b));
        NonEmptyCons(word, Pieces(a[1..]));
      }
    }
  }

  lemma NoWords()
    ensures Words([]) == {}
  {
    assert Pieces([]) == [[]];
  }

  lemma {:induction false} StripWords(s: string)
    ensures Words(Lower(StripSeparators(s))) == Words(Lower(s))
    decreases |s|
  {
    if s != [] && IsSeparator(s[|s| - 1]) {
      var init := s[..|s| - 1];
      StripWords(init);
      assert s == init + [s[|s| - 1]] + [];
      LowerParts(init, [s[|s| - 1]]);
      assert Lower(s) == Lower(init) + [s[|s| - 1]] + [];
      WordsApart(Lower(init), s[|s| - 1], [], []);
      NoWords();
    }
  }

  lemma NormalizeWords(s: string)
    ensures Words(Lower(Normalize(s))) == Words(Lower(s))
  {
    StripWords(Collapse(s));
    CollapseWords(s, []);
  }

  /** Directory and name joined have the words of the path the index is built from. */
  lemma JoinWords(dir: string, name: string)
    requires '/' !in name
    ensures Words(Lower(Join(dir, name))) == Words(Lower(dir + "/" + name))
  {
    SlashWords(dir, name);
    if dir == [] {
      assert dir + name == name && Lower(dir) == [];
      NoWords();
    } else if dir[|dir| - 1] == '/' {
      var init := dir[..|dir| - 1];
      assert dir + name == init + "/" + name;
      assert dir == init + "/" + [];
      SlashWords(init, name);
      SlashWords(init, []);
      assert Lower([]) == [];
      NoWords();
    }
  }

  lemma SlashWords(a: string, b: string)
    ensures Words(Lower(a + "/" + b)) == Words(Lower(a)) + Words(Lower(b))
  {
    LowerParts(a + "/", b);
    LowerParts(a, "/");
    assert Lower("/") == ['/'];
    assert Lower(a + "/" + b) == Lower(a) + ['/'] + Lower(b);
    WordsApart(Lower(a), '/', Lower(b), []);
  }
}
