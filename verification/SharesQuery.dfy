/**
 Searching the shared files: parsing a query, the index of terms, and a query that uses the index first and
 the patterns of the terms afterwards.
 */
module SharesQuery {

  import opened Wrappers
  import opened SharesText

  datatype ShareMode = Everyone | Friends | Users

  datatype Directory = Directory(alias: string, mode: ShareMode, users: set<string>)

  datatype Item = Item(directory: Directory, subdir: string, filename: string)

  /** is_item_locked */
  predicate IsLocked(i: Item, friends: set<string>, username: string)
  {
    match i.directory.mode
    case Friends => username !in friends
    case Users => username !in i.directory.users
    case Everyone => false
  }

  /** A file name holds no slash. */
  predicate ValidItem(i: Item)
  {
    '/' !in i.filename
  }

  /** What an item is indexed by. */
  function IndexPath(i: Item): string
  {
    Lower(i.subdir + "/" + i.filename)
  }

  /** get_query_path, in lower case as the patterns ignore case */
  function QueryPath(i: Item): string
  {
    Lower(Normalize(Join(i.subdir, i.filename)))
  }

  /** The index sees the same words as the patterns. */
  lemma SameWords(i: Item)
    requires ValidItem(i)
    ensures Words(IndexPath(i)) == Words(QueryPath(i))
  {
    NormalizeWords(Join(i.subdir, i.filename));
    JoinWords(i.subdir, i.filename);
  }

  /** In one directory, or below another one, the query path is the names with a backslash between, in lower case. */
  lemma QueryPathIs(i: Item, dir: string)
    requires NoSeparators(i.filename) && i.filename != [] && NoSeparators(dir) && dir != []
    ensures i.subdir == [] ==> QueryPath(i) == Lower(i.filename)
    ensures i.subdir == dir || i.subdir == dir + "/" ==> QueryPath(i) == Lower(dir + "\\" + i.filename)
  {
    var name := i.filename;
    if i.subdir == [] {
      assert [] + name == name && [name[|name| - 1]][0] == name[|name| - 1];
      CollapseNone(name);
    } else if i.subdir == dir || i.subdir == dir + "/" {
      assert dir + "/" + name == dir + "/" + (name + []);
      NormalizedPath(dir, "/", name, []);
    }
  }

  // ---------------------------------------------------------------- queries

  datatype Query = Query(includeTerms: set<string>, excludeTerms: set<string>, wildcardTerms: set<string>)

  predicate HasAlnum(s: string)
  {
    exists i :: 0 <= i < |s| && IsAlnum(s[i])
  }

  predicate IsSpace(c: char)
  {
    c in {' ', '\t', '\n', '\r', '\U{0B}', '\U{0C}', '\U{1C}', '\U{1D}', '\U{1E}', '\U{1F}'}
  }

  /** str.split: the parts between white space */
  function Fields(s: string, part: string): seq<string>
    decreases |s|
  {
    var done := if part == [] then [] else [part];
    if s == [] then done
    else if IsSpace(s[0]) then done + Fields(s[1..], [])
    else Fields(s[1..], part + [s[0]])
  }

  datatype Role = Included | Excluded | Wildcard | Ignored

  function RoleOf(term: string): Role
  {
    if !HasAlnum(Lower(term)) then Ignored
    else if term[0] == '*' then Wildcard
    else if term[0] == '-' then Excluded
    else Included
  }

  function WithRole(terms: seq<string>, role: Role): set<string>
    requires role != Ignored
  {
    set t | t in terms && RoleOf(t) == role :: if role == Included then Lower(t) else Lower(t)[1..]
  }

  function Parsed(query: string): Query
  {
    var terms := Fields(query, []);
    Query(WithRole(terms, Included), WithRole(terms, Excluded), WithRole(terms, Wildcard))
  }

  /** SearchQuery.parse */
  method Parse(query: string) returns (q: Query)
    ensures q == Parsed(query)
  {
    var terms := Fields(query, []);
    q := Query({}, {}, {});
    for n := 0 to |terms|
      invariant q == Query(WithRole(terms[..n], Included), WithRole(terms[..n], Excluded), WithRole(terms[..n], Wildcard))
    {
      var term := terms[n];
      RolesAppend(terms[..n], term);
      assert terms[..n + 1] == terms[..n] + [term];
      var lTerm := Lower(term);
      if !HasAlnum(lTerm) {
        continue;
      }
      if term[0] == '*' {
        q := q.(wildcardTerms := q.wildcardTerms + {lTerm[1..]});
      } else if term[0] == '-' {
        q := q.(excludeTerms := q.excludeTerms + {lTerm[1..]});
      } else {
        q := q.(includeTerms := q.includeTerms + {lTerm});
      }
    }
    assert terms[..|terms|] == terms;
  }

  lemma RolesAppend(terms: seq<string>, term: string)
    ensures forall role {:trigger WithRole(terms, role)} :: role != Ignored ==>
      WithRole(terms + [term], role) ==
      WithRole(terms, role) + if RoleOf(term) == role then {if role == Included then Lower(term) else Lower(term)[1..]} else {}
  {
  }

  /** The terms are in lower case, as parsing leaves them. */
  ghost predicate IsLower(q: Query)
  {
    forall t :: t in q.includeTerms + q.excludeTerms + q.wildcardTerms ==> Lower(t) == t
  }

  lemma LowerTwice(t: string)
    ensures Lower(Lower(t)) == Lower(t)
    ensures t != [] ==> Lower(Lower(t)[1..]) == Lower(t)[1..]
  {
    if t != [] {
      LowerTail(Lower(t));
    }
  }

  lemma ParsedIsLower(query: string)
    ensures IsLower(Parsed(query))
  {
    var q := Parsed(query);
    forall term | term in q.includeTerms + q.excludeTerms + q.wildcardTerms ensures Lower(term) == term {
      var t :| t in Fields(query, []) && RoleOf(t) != Ignored && term == if RoleOf(t) == Included then Lower(t) else Lower(t)[1..];
      LowerTwice(t);
    }
  }

  lemma {:induction false} FieldsApart(a: string, c: char, b: string, part: string)
    requires IsSpace(c)
    ensures Fields(a + [c] + b, part) == Fields(a, part) + Fields(b, [])
    decreases |a|
  {
    var s := a + [c] + b;
    if a == [] {
      assert s[0] == c && s[1..] == b;
    } else {
      assert s[0] == a[0] && s[1..] == a[1..] + [c] + b;
      FieldsApart(a[1..], c, b, if IsSpace(a[0]) then [] else part + [a[0]]);
    }
  }

  lemma WithRoleUnion(a: seq<string>, b: seq<string>, role: Role)
    requires role != Ignored
    ensures WithRole(a + b, role) == WithRole(a, role) + WithRole(b, role)
  {
  }

  /** A query is that of its parts, wherever it is split at a space. */
  lemma ParsedApart(a: string, b: string)
    ensures var p, q := Parsed(a), Parsed(b);
            Parsed(a + " " + b) ==
            Query(p.includeTerms + q.includeTerms, p.excludeTerms + q.excludeTerms, p.wildcardTerms + q.wildcardTerms)
  {
    FieldsApart(a, ' ', b, []);
    WithRoleUnion(Fields(a, []), Fields(b, []), Included);
    WithRoleUnion(Fields(a, []), Fields(b, []), Excluded);
    WithRoleUnion(Fields(a, []), Fields(b, []), Wildcard);
  }

  /** One term without white space */
  lemma {:induction false} OneField(s: string, part: string)
    requires part + s != [] && forall k :: 0 <= k < |s| ==> !IsSpace(s[k])
    ensures Fields(s, part) == [part + s]
    decreases |s|
  {
    if s == [] {
      assert part + s == part;
    } else {
      OneField(s[1..], part + [s[0]]);
      assert part + [s[0]] + s[1..] == part + s;
    }
  }

  lemma OneTerm(term: string, role: Role)
    requires role != Ignored
    ensures WithRole([term], role) ==
            if RoleOf(term) == role then {if role == Included then Lower(term) else Lower(term)[1..]} else {}
  {
    RolesAppend([], term);
    assert [] + [term] == [term];
  }

  lemma ParsedOne(term: string)
    requires term != [] && forall k :: 0 <= k < |term| ==> !IsSpace(term[k])
    ensures Parsed(term) ==
            match RoleOf(term)
            case Included => Query({Lower(term)}, {}, {})
            case Excluded => Query({}, {Lower(term)[1..]}, {})
            case Wildcard => Query({}, {}, {Lower(term)[1..]})
            case Ignored => Query({}, {}, {})
  {
    OneField(term, []);
    assert [] + term == term;
    OneTerm(term, Included);
    OneTerm(term, Excluded);
    OneTerm(term, Wildcard);
  }

  lemma RoleOfSigned(sign: string, word: string)
    requires word != [] && AllAlnum(word) && |sign| <= 1
    ensures sign == "" ==> RoleOf(sign + word) == Included && sign + word == word
    ensures sign == "-" ==> RoleOf(sign + word) == Excluded && Lower(sign + word)[1..] == Lower(word)
    ensures sign == "*" ==> RoleOf(sign + word) == Wildcard && Lower(sign + word)[1..] == Lower(word)
  {
    LowerParts(sign, word);
    var i := |sign|;
    assert Lower(sign + word)[i] == Lower(word)[0] == LowerChar(word[0]);
  }

  lemma NoSpaces(sign: string, word: string)
    requires AllAlnum(word) && sign in {"", "-", "*"}
    ensures forall k :: 0 <= k < |sign + word| ==> !IsSpace((sign + word)[k])
  {
    forall k | 0 <= k < |sign + word| ensures !IsSpace((sign + word)[k]) {
      var c := (sign + word)[k];
      if k >= |sign| { assert c == word[k - |sign|] && IsAlnum(c); }
    }
  }

  lemma ParsedSigned(sign: string, word: string)
    requires word != [] && AllAlnum(word) && sign in {"", "-", "*"}
    ensures Parsed(sign + word) ==
            if sign == "" then Query({Lower(word)}, {}, {})
            else if sign == "-" then Query({}, {Lower(word)}, {}) else Query({}, {}, {Lower(word)})
  {
    NoSpaces(sign, word);
    RoleOfSigned(sign, word);
    ParsedOne(sign + word);
  }

  /** A word is to be found, behind a minus it is not to be found, and behind a star it is to end a word. */
  lemma ParsedWord(word: string)
    requires word != [] && AllAlnum(word)
    ensures Parsed(word) == Query({Lower(word)}, {}, {})
    ensures Parsed("-" + word) == Query({}, {Lower(word)}, {})
    ensures Parsed("*" + word) == Query({}, {}, {Lower(word)})
  {
    assert "" + word == word;
    ParsedSigned("", word);
    ParsedSigned("-", word);
    ParsedSigned("*", word);
  }

  /** has_inclusion_terms */
  predicate HasInclusionTerms(q: Query)
  {
    q.includeTerms != {} || q.wildcardTerms != {}
  }

  /** Every term of a parsed query has a word. */
  lemma ParsedTermsHaveWords(query: string, term: string)
    requires term in Parsed(query).includeTerms + Parsed(query).excludeTerms + Parsed(query).wildcardTerms
    ensures Words(term) != {}
  {
    var terms := Fields(query, []);
    var t :| t in terms && RoleOf(t) != Ignored && term == if RoleOf(t) == Included then Lower(t) else Lower(t)[1..];
    var i :| 0 <= i < |t| && IsAlnum(Lower(t)[i]);
    if RoleOf(t) == Included {
      AlnumMakesWord(term, [], i);
    } else {
      AlnumMakesWord(term, [], i - 1);
    }
  }

  // ---------------------------------------------------------------- the full scan

  predicate IsAt(s: string, phrase: string, p: nat)
  {
    p + |phrase| <= |s| && s[p..p + |phrase|] == phrase
  }

  /** phrase in s */
  predicate Contains(s: string, phrase: string)
  {
    exists p :: 0 <= p <= |s| && IsAt(s, phrase, p)
  }

  /** all of matchers_iter; the patterns ignore case, so text and term are compared in lower case */
  predicate MatchesTerms(q: Query, i: Item)
  {
    && (forall t :: t in q.includeTerms ==> Found(QueryPath(i), Lower(t)))
    && (forall t :: t in q.wildcardTerms ==> FoundWild(QueryPath(i), Lower(t)))
    && (forall t :: t in q.excludeTerms ==> !Found(QueryPath(i), Lower(t)))
  }

  predicate HasPhrase(phrases: seq<string>, i: Item)
  {
    exists k :: 0 <= k < |phrases| && Contains(QueryPath(i), phrases[k])
  }

  /** The term patterns and the excluded phrases, on one item. */
  predicate Matches(q: Query, phrases: seq<string>, i: Item)
  {
    MatchesTerms(q, i) && !HasPhrase(phrases, i)
  }

  // ---------------------------------------------------------------- the index

  type TermMap = map<string, set<Item>>

  /** Every term maps to the items that have it; a term left over from removed items maps to none. */
  ghost predicate Indexes(m: TermMap, items: set<Item>)
  {
    && (forall t :: t in m ==> m[t] == set i | i in items && t in Words(IndexPath(i)))
    && (forall i, t :: i in items && t in Words(IndexPath(i)) ==> t in m)
  }

  // ---------------------------------------------------------------- index terms of a query

  function IncludeWords(q: Query): set<string>
  {
    set term, w | term in q.includeTerms && w in Words(term) :: w
  }

  function WildcardRest(q: Query): set<string>
  {
    set term, w | term in q.wildcardTerms && w in Rest(term) :: w
  }

  /** All terms of the index that end with the first piece of a wildcard term. */
  function WildcardFirst(m: TermMap, q: Query): set<string>
  {
    set term, w | term in q.wildcardTerms && First(term) != [] && w in m && EndsWith(w, First(term)) :: w
  }

  /** The index has a term that ends with the first piece. */
  predicate HasEnding(m: TermMap, term: string)
  {
    First(term) != [] ==> exists w :: w in m && EndsWith(w, First(term))
  }

  /** What a query asks of the index: every one of these terms. */
  function AskedFor(m: TermMap, q: Query): set<string>
  {
    IncludeWords(q) + (WildcardRest(q) + WildcardFirst(m, q))
  }

  /** The index gives the item for everything the query asks. */
  ghost predicate IndexGives(m: TermMap, q: Query, i: Item)
  {
    && (forall w :: w in AskedFor(m, q) ==> w in m && i in m[w])
    && (forall term :: term in q.wildcardTerms ==> HasEnding(m, term))
  }

  /** The items a query finds. */
  ghost function Expected(m: TermMap, items: set<Item>, q: Query, phrases: seq<string>): set<Item>
  {
    set i | i in items && Matches(q, phrases, i) && IndexGives(m, q, i)
  }

  function FullScan(items: set<Item>, q: Query, phrases: seq<string>): set<Item>
  {
    set i | i in items && Matches(q, phrases, i)
  }

  // ---------------------------------------------------------------- when the index is as good as a full scan

  lemma PlainFirst(term: string)
    requires AllAlnum(term)
    ensures First(term) == term && Rest(term) == {}
  {
    var n := FirstPiece(term, []);
    assert term[..n] == term && [] + term == term;
  }

  /** A word that ends with the term is where the pattern of the wildcard term matches. */
  lemma EndingFoundWild(s: string, w: string, end: string)
    requires HasWord(s, w) && EndsWith(w, end)
    ensures FoundWild(s, end)
  {
    var p: nat :| WordAt(s, p, w);
    var q := p + |w| - |end|;
    SliceOfSlice(s, p, w, |w| - |end|, |end|);
    SliceOfSlice(s, p, w, 0, |w| - |end|);
    var front := w[..|w| - |end|];
    assert AllAlnum(front) && s[p..q] == front;
    assert FoundWildAt(s, end, p, q);
  }

  /** An item that matches has all words the index is asked for, but for those of the first pieces. */
  lemma MatchHasWords(q: Query, phrases: seq<string>, m: TermMap, items: set<Item>, i: Item)
    requires Indexes(m, items) && i in items && ValidItem(i) && Matches(q, phrases, i) && IsLower(q)
    ensures forall w :: w in IncludeWords(q) + WildcardRest(q) ==> w in m && i in m[w]
  {
    SameWords(i);
    forall w | w in IncludeWords(q) + WildcardRest(q) ensures w in Words(IndexPath(i)) {
      if w in IncludeWords(q) {
        var term :| term in q.includeTerms && w in Words(term);
        FoundHasWords(QueryPath(i), term, w);
      } else {
        var term :| term in q.wildcardTerms && w in Rest(term);
        FoundWildHasRest(QueryPath(i), term, w);
      }
    }
  }

  /** For the first piece of a wildcard term the index has a term of the item that ends with it. */
  lemma MatchHasEnding(q: Query, phrases: seq<string>, m: TermMap, items: set<Item>, i: Item, term: string) returns (w: string)
    requires Indexes(m, items) && i in items && ValidItem(i) && Matches(q, phrases, i) && IsLower(q)
    requires term in q.wildcardTerms && First(term) != []
    ensures w in m && i in m[w] && EndsWith(w, First(term))
  {
    SameWords(i);
    w := FoundWildHasFirst(QueryPath(i), term);
    assert w in Words(IndexPath(i));
  }

  /** Terms of the index that end alike index the same items. */
  ghost predicate EndingsAgree(m: TermMap, end: string)
  {
    end != [] ==> forall w, v :: w in m && v in m && EndsWith(w, end) && EndsWith(v, end) ==> m[w] == m[v]
  }

  /** What a query finds matches, and it is all that matches if, for each wildcard term, the endings agree. */
  lemma CompleteWhenEndingsAgree(m: TermMap, items: set<Item>, q: Query, phrases: seq<string>)
    requires Indexes(m, items) && (forall i :: i in items ==> ValidItem(i)) && IsLower(q)
    ensures Expected(m, items, q, phrases) <= FullScan(items, q, phrases)
    ensures (forall term :: term in q.wildcardTerms ==> EndingsAgree(m, First(term))) ==>
              Expected(m, items, q, phrases) == FullScan(items, q, phrases)
  {
    if forall term :: term in q.wildcardTerms ==> EndingsAgree(m, First(term)) {
      forall i | i in FullScan(items, q, phrases) ensures IndexGives(m, q, i) {
        MatchHasWords(q, phrases, m, items, i);
        forall term | term in q.wildcardTerms && First(term) != []
          ensures HasEnding(m, term) && forall w :: w in m && EndsWith(w, First(term)) ==> i in m[w]
        {
          var v := MatchHasEnding(q, phrases, m, items, i, term);
        }
      }
    }
  }

  /** The items that the rest of a query lets through, whatever its wildcard terms are. */
  function LetThrough(items: set<Item>, q: Query, phrases: seq<string>): set<Item>
  {
    FullScan(items, q.(wildcardTerms := {}), phrases)
  }

  /** The index gives an item for a word that ends with the wildcard term, so the pattern of the term matches. */
  lemma IndexedMatches(q: Query, phrases: seq<string>, m: TermMap, items: set<Item>, i: Item, end: string, w: string)
    requires Indexes(m, items) && (forall i :: i in items ==> ValidItem(i))
    requires q.wildcardTerms == {end} && Lower(end) == end
    requires w in m && EndsWith(w, end) && i in LetThrough(m[w], q, phrases)
    ensures i in FullScan(items, q, phrases)
  {
    SameWords(i);
    WordsAreRuns(QueryPath(i), w);
    EndingFoundWild(QueryPath(i), w, end);
  }

  /** Any two terms of the index that end with the term index the same items, of those let through by the rest. */
  ghost predicate EndingsLetThrough(m: TermMap, q: Query, phrases: seq<string>, end: string)
  {
    forall w, v :: w in m && v in m && EndsWith(w, end) && EndsWith(v, end) ==>
      LetThrough(m[w], q, phrases) == LetThrough(m[v], q, phrases)
  }

  lemma EndingsNeeded(m: TermMap, items: set<Item>, q: Query, phrases: seq<string>, end: string, w: string, v: string)
    requires Indexes(m, items) && forall i :: i in items ==> ValidItem(i)
    requires q.wildcardTerms == {end} && end != [] && AllAlnum(end) && Lower(end) == end
    requires Expected(m, items, q, phrases) == FullScan(items, q, phrases)
    requires w in m && v in m && EndsWith(w, end) && EndsWith(v, end)
    ensures LetThrough(m[w], q, phrases) <= LetThrough(m[v], q, phrases)
  {
    PlainFirst(end);
    forall i | i in LetThrough(m[w], q, phrases) ensures i in LetThrough(m[v], q, phrases) {
      IndexedMatches(q, phrases, m, items, i, end, w);
      assert v in WildcardFirst(m, q);
      assert i in Expected(m, items, q, phrases);
    }
  }

  lemma EndingsSuffice(m: TermMap, items: set<Item>, q: Query, phrases: seq<string>, end: string, i: Item)
    requires Indexes(m, items) && (forall i :: i in items ==> ValidItem(i)) && IsLower(q)
    requires q.wildcardTerms == {end} && end != [] && AllAlnum(end)
    requires EndingsLetThrough(m, q, phrases, end) && i in FullScan(items, q, phrases)
    ensures IndexGives(m, q, i)
  {
    PlainFirst(end);
    MatchHasWords(q, phrases, m, items, i);
    var v := MatchHasEnding(q, phrases, m, items, i, end);
    assert i in LetThrough(m[v], q, phrases);
    forall w | w in WildcardFirst(m, q) ensures i in m[w] {
      assert i in LetThrough(m[w], q, phrases);
    }
  }

  /**
   A query with one wildcard term of letters and digits finds all that matches exactly when any two terms of the
   index that end with it index the same items, of those that the rest of the query lets through.
   */
  lemma CompleteExactly(m: TermMap, items: set<Item>, q: Query, phrases: seq<string>, end: string)
    requires Indexes(m, items) && (forall i :: i in items ==> ValidItem(i)) && IsLower(q)
    requires q.wildcardTerms == {end} && end != [] && AllAlnum(end)
    ensures Expected(m, items, q, phrases) == FullScan(items, q, phrases) <==> EndingsLetThrough(m, q, phrases, end)
  {
    if Expected(m, items, q, phrases) == FullScan(items, q, phrases) {
      forall w, v | w in m && v in m && EndsWith(w, end) && EndsWith(v, end)
        ensures LetThrough(m[w], q, phrases) == LetThrough(m[v], q, phrases)
      {
        EndingsNeeded(m, items, q, phrases, end, w, v);
        EndingsNeeded(m, items, q, phrases, end, v, w);
      }
    }
    if EndingsLetThrough(m, q, phrases, end) {
      forall i | i in FullScan(items, q, phrases) ensures IndexGives(m, q, i) {
        EndingsSuffice(m, items, q, phrases, end, i);
      }
    }
  }

  /** With the wildcard term alone, this is a matter of the index only. */
  lemma PlainWildcardExactly(m: TermMap, items: set<Item>, end: string)
    requires Indexes(m, items) && forall i :: i in items ==> ValidItem(i)
    requires end != [] && AllAlnum(end) && Lower(end) == end
    ensures Expected(m, items, Query({}, {}, {end}), []) == FullScan(items, Query({}, {}, {end}), []) <==>
            EndingsAgree(m, end)
  {
    var q := Query({}, {}, {end});
    CompleteExactly(m, items, q, [], end);
    forall w | w in m ensures LetThrough(m[w], q, []) == m[w] {}
  }

  // ---------------------------------------------------------------- queries of plain words

  predicate IsWord(t: string)
  {
    t != [] && AllAlnum(t) && Lower(t) == t
  }

  /** Only words, in lower case, to be found or not to be found */
  ghost predicate IsPlainQuery(q: Query)
  {
    q.wildcardTerms == {} && forall t :: t in q.includeTerms + q.excludeTerms ==> IsWord(t)
  }

  /** Directory and name have all the words to be found, and none of the others. */
  ghost predicate HasTheWords(q: Query, i: Item)
  {
    var path := Lower(i.subdir + "/" + i.filename);
    && (forall t :: t in q.includeTerms ==> HasWord(path, t))
    && (forall t :: t in q.excludeTerms ==> !HasWord(path, t))
  }

  /** One of the phrases stands somewhere in the query path. */
  ghost predicate HasAPhrase(phrases: seq<string>, i: Item)
  {
    exists k, a, b :: 0 <= k < |phrases| && QueryPath(i) == a + phrases[k] + b
  }

  lemma PhraseExactly(phrases: seq<string>, i: Item)
    ensures HasPhrase(phrases, i) <==> HasAPhrase(phrases, i)
  {
    var path := QueryPath(i);
    if HasPhrase(phrases, i) {
      var k :| 0 <= k < |phrases| && Contains(path, phrases[k]);
      var p :| 0 <= p <= |path| && IsAt(path, phrases[k], p);
      var a, b := path[..p], path[p + |phrases[k]|..];
      assert path == a + phrases[k] + b;
    }
    forall k, a, b | 0 <= k < |phrases| && path == a + phrases[k] + b ensures HasPhrase(phrases, i) {
      assert path[|a|..|a| + |phrases[k]|] == phrases[k];
      assert IsAt(path, phrases[k], |a|);
      assert Contains(path, phrases[k]);
    }
  }

  /** A plain query matches exactly the items with its words, wherever in the path they are, and without phrases. */
  lemma PlainMatchExactly(q: Query, phrases: seq<string>, i: Item)
    requires IsPlainQuery(q) && ValidItem(i)
    ensures Matches(q, phrases, i) <==> HasTheWords(q, i) && !HasAPhrase(phrases, i)
  {
    PhraseExactly(phrases, i);
    var path := Lower(i.subdir + "/" + i.filename);
    forall t | t in q.includeTerms + q.excludeTerms
      ensures Found(QueryPath(i), Lower(t)) <==> HasWord(path, t)
    {
      SameWords(i);
      WordIsFound(QueryPath(i), t);
      WordsAreRuns(QueryPath(i), t);
      WordsAreRuns(path, t);
    }
  }

  /** So below the maximum the result is exactly these items. */
  lemma PlainQueryFinds(q: Query, phrases: seq<string>, items: set<Item>, found: set<Item>, maxResults: int)
    requires IsPlainQuery(q) && (forall i :: i in items ==> ValidItem(i))
    requires IsSelection(found, FullScan(items, q, phrases), maxResults)
    ensures forall i :: i in found ==> i in items && HasTheWords(q, i) && !HasAPhrase(phrases, i)
    ensures |found| < maxResults ==> forall i :: i in items && HasTheWords(q, i) && !HasAPhrase(phrases, i) ==> i in found
  {
    forall i | i in items ensures Matches(q, phrases, i) <==> HasTheWords(q, i) && !HasAPhrase(phrases, i) {
      PlainMatchExactly(q, phrases, i);
    }
  }

  function ItemsOf(items: seq<Item>): set<Item>
  {
    set i | i in items
  }

  // ---------------------------------------------------------------- the manager object

  /** The index has no term to look up: an index error. */
  datatype Results = IndexError | Listed(visible: set<Item>, locked: set<Item>)

  class SharesManager {
    var termMap: TermMap

    constructor ()
      ensures Indexes(termMap, {})
    {
      termMap := map[];
    }

    /** _add_item_to_term_map */
    method AddItemToTermMap(item: Item, ghost items: set<Item>)
      requires Indexes(termMap, items)
      modifies this
      ensures Indexes(termMap, items + {item})
    {
      var terms := Pieces(IndexPath(item));
      for n := 0 to |terms|
        invariant forall t :: t in termMap ==>
                    termMap[t] == set i | i in items + {item} && t in Words(IndexPath(i)) && (i in items || t in terms[..n])
        invariant forall i, t :: i in items && t in Words(IndexPath(i)) ==> t in termMap
        invariant forall t :: t in terms[..n] && t != [] ==> t in termMap
      {
        var term := terms[n];
        assert terms[..n + 1] == terms[..n] + [term];
        if term == [] {
          continue;
        }
        if term !in termMap {
          termMap := termMap[term := {}];
        }
        termMap := termMap[term := termMap[term] + {item}];
      }
      assert terms[..|terms|] == terms;
    }

    /** rebuild_term_map and _build_term_map, over the items of all directories */
    method RebuildTermMap(items: seq<Item>)
      modifies this
      ensures Indexes(termMap, ItemsOf(items))
    {
      termMap := map[];
      for n := 0 to |items|
        invariant Indexes(termMap, ItemsOf(items[..n]))
      {
        assert items[..n + 1] == items[..n] + [items[n]];
        assert ItemsOf(items[..n + 1]) == ItemsOf(items[..n]) + {items[n]};
        AddItemToTermMap(items[n], ItemsOf(items[..n]));
      }
      assert items[..|items|] == items;
    }

    /** _cleanup_term_map */
    method CleanupTermMap(ghost items: set<Item>)
      requires Indexes(termMap, items)
      modifies this
      ensures Indexes(termMap, items) && forall t :: t in termMap ==> termMap[t] != {}
    {
      forall i, t | i in items && t in Words(IndexPath(i)) ensures i in termMap[t] {}
      termMap := map t | t in termMap && termMap[t] != {} :: termMap[t];
    }

    /** The index terms of the plain terms; missing when the index lacks one of them. */
    method CollectIncludeTerms(q: Query) returns (terms: seq<string>, missing: bool)
      ensures missing ==> exists w :: w in IncludeWords(q) && w !in termMap
      ensures !missing ==> Elements(terms) == IncludeWords(q) && Elements(terms) <= termMap.Keys
    {
      terms, missing := [], false;
      var todo := q.includeTerms;
      while todo != {}
        invariant todo <= q.includeTerms && Elements(terms) == IncludeWords(q.(includeTerms := q.includeTerms - todo))
        invariant Elements(terms) <= termMap.Keys
      {
        var term :| term in todo;
        var ok, words := LookUp(Pieces(term));
        if !ok {
          var w :| w in NonEmpty(Pieces(term)) && w !in termMap;
          assert term in q.includeTerms && w in Words(term);
          return terms, true;
        }
        IncludeMore(q, todo, term);
        ElementsAppend(terms, words);
        terms := terms + words;
        todo := todo - {term};
      }
      assert q.includeTerms - {} == q.includeTerms && q.(includeTerms := q.includeTerms) == q;
    }

    /** The non-empty pieces, as long as the index has them. */
    method LookUp(pieces: seq<string>) returns (ok: bool, words: seq<string>)
      ensures ok ==> Elements(words) == NonEmpty(pieces) && Elements(words) <= termMap.Keys
      ensures !ok ==> exists w :: w in NonEmpty(pieces) && w !in termMap
    {
      ok, words := true, [];
      for n := 0 to |pieces|
        invariant Elements(words) == NonEmpty(pieces[..n]) && Elements(words) <= termMap.Keys
      {
        assert pieces[..n + 1] == pieces[..n] + [pieces[n]];
        ElementsAppend(words, [pieces[n]]);
        ElementsOne(pieces[n]);
        if pieces[n] == [] {
          continue;
        }
        if pieces[n] !in termMap {
          assert pieces[n] in NonEmpty(pieces);
          return false, words;
        }
        words := words + [pieces[n]];
      }
      assert pieces[..|pieces|] == pieces;
    }

    /** The terms of the index that end with end. */
    method TermsEndingWith(end: string) returns (words: seq<string>)
      ensures Elements(words) == set w | w in termMap && EndsWith(w, end)
    {
      words := [];
      var todo := termMap.Keys;
      while todo != {}
        invariant todo <= termMap.Keys && Elements(words) == set w | w in termMap && w !in todo && EndsWith(w, end)
      {
        var w :| w in todo;
        ElementsAppend(words, [w]);
        ElementsOne(w);
        if EndsWith(w, end) {
          words := words + [w];
        }
        todo := todo - {w};
      }
    }

    /** The index terms of the wildcard terms; missing when the index lacks one or has none for a first piece. */
    method CollectWildcardTerms(q: Query) returns (terms: seq<string>, missing: bool)
      ensures missing ==> (exists w :: w in WildcardRest(q) && w !in termMap) ||
                          (exists term :: term in q.wildcardTerms && First(term) != [] && forall w :: w in termMap ==> !EndsWith(w, First(term)))
      ensures !missing ==> Elements(terms) == WildcardRest(q) + WildcardFirst(termMap, q) && Elements(terms) <= termMap.Keys
      ensures !missing ==> forall term :: term in q.wildcardTerms ==> HasEnding(termMap, term)
    {
      terms, missing := [], false;
      var todo := q.wildcardTerms;
      while todo != {}
        invariant todo <= q.wildcardTerms && Elements(terms) == WildcardWords(termMap, q.(wildcardTerms := q.wildcardTerms - todo))
        invariant Elements(terms) <= termMap.Keys
        invariant forall term :: term in q.wildcardTerms - todo ==> HasEnding(termMap, term)
      {
        var term :| term in todo;
        WildcardMore(termMap, q, todo, term);
        if First(term) != [] {
          var matching := TermsEndingWith(First(term));
          if matching == [] {
            assert forall w :: w in termMap && EndsWith(w, First(term)) ==> w in Elements(matching);
            return terms, true;
          }
          assert matching[0] in Elements(matching);
          ElementsAppend(terms, matching);
          terms := terms + matching;
        }
        var ok, words := LookUp(Pieces(term)[1..]);
        if !ok {
          var w :| w in Rest(term) && w !in termMap;
          assert term in q.wildcardTerms && w in Rest(term);
          return terms, true;
        }
        ElementsAppend(terms, words);
        terms := terms + words;
        todo := todo - {term};
      }
      assert q.wildcardTerms - {} == q.wildcardTerms && q.(wildcardTerms := q.wildcardTerms) == q;
    }

    /** The items that all terms have. */
    method Intersect(terms: seq<string>) returns (found: set<Item>)
      requires terms != [] && Elements(terms) <= termMap.Keys
      ensures forall i :: i in found <==> InAll(termMap, terms, i)
    {
      found := termMap[terms[0]];
      for n := 0 to |terms|
        invariant forall i :: i in found ==> i in termMap[terms[0]] && InAll(termMap, terms[..n], i)
        invariant forall i :: i in termMap[terms[0]] && InAll(termMap, terms[..n], i) ==> i in found
      {
        assert terms[n] in Elements(terms);
        assert terms[..n + 1] == terms[..n] + [terms[n]];
        forall i ensures InAll(termMap, terms[..n + 1], i) <==> InAll(termMap, terms[..n], i) && i in termMap[terms[n]] {
          InAllMore(termMap, terms[..n], terms[n], i);
        }
        found := found * termMap[terms[n]];
      }
      assert terms[..|terms|] == terms;
      assert terms[0] in Elements(terms);
    }

    /** The matching items, as many as are asked for. */
    method Filter(found: set<Item>, q: Query, phrases: seq<string>, maxResults: int) returns (kept: set<Item>)
      ensures IsSelection(kept, FullScan(found, q, phrases), maxResults)
    {
      kept := {};
      var todo := found;
      ghost var done: set<Item> := {};
      while todo != {}
        invariant done + todo == found && done !! todo && kept == FullScan(done, q, phrases)
        invariant kept == {} || |kept| < maxResults
      {
        var item :| item in todo;
        todo := todo - {item};
        ScanMore(done, q, phrases, item);
        done := done + {item};
        if !MatchesTerms(q, item) {
          continue;
        }
        if !HasPhrase(phrases, item) {
          kept := kept + {item};
        }
        if |kept| >= maxResults {
          ScanMonotone(done, found, q, phrases);
          return;
        }
      }
      assert done == found;
    }

    /** The part of query that finds items; None is the index error. */
    method Search(q: Query, phrases: seq<string>, maxResults: int, ghost items: set<Item>) returns (kept: Option<set<Item>>)
      requires Indexes(termMap, items) && forall i :: i in items ==> ValidItem(i)
      ensures kept == None <==> NothingToLookUp(q)
      ensures kept.Some? ==> IsSelection(kept.value, Expected(termMap, items, q, phrases), maxResults)
      ensures kept.Some? && IsComplete(termMap, q) ==> IsSelection(kept.value, FullScan(items, q, phrases), maxResults)
    {
      var includeTerms, missing := CollectIncludeTerms(q);
      if missing {
        MissingMeansNone(q, phrases, termMap, items);
        CompleteIfLower(termMap, items, q, phrases);
        return Some({});
      }
      var wildcardTerms, lacking := CollectWildcardTerms(q);
      if lacking {
        MissingMeansNone(q, phrases, termMap, items);
        CompleteIfLower(termMap, items, q, phrases);
        return Some({});
      }
      var terms := includeTerms + wildcardTerms;
      ElementsAppend(includeTerms, wildcardTerms);
      TermsToLookUp(termMap, q);
      if terms == [] {
        assert Elements(terms) == {};
        return None;
      }
      assert terms[0] in Elements(terms);
      var found := Intersect(terms);
      FoundAreExpected(termMap, items, q, phrases, terms, found);
      CompleteIfLower(termMap, items, q, phrases);
      var selected := Filter(found, q, phrases, maxResults);
      kept := Some(selected);
    }

    /** The order by visible and locked results, when a user name is given */
    method Partition(found: set<Item>, username: string, friends: set<string>) returns (visible: set<Item>, locked: set<Item>)
      ensures visible + locked == found && visible !! locked
      ensures forall i :: i in found ==> (i in locked <==> username != "" && IsLocked(i, friends, username))
    {
      visible, locked := {}, {};
      if username == "" {
        return found, {};
      }
      var todo := found;
      while todo != {}
        invariant todo <= found && visible + locked == found - todo && visible !! locked
        invariant forall i :: i in visible + locked ==> (i in locked <==> IsLocked(i, friends, username))
      {
        var item :| item in todo;
        todo := todo - {item};
        if IsLocked(item, friends, username) {
          locked := locked + {item};
        } else {
          visible := visible + {item};
        }
      }
    }

    /** query: what is found, for a user divided into what the user may see and what is locked */
    method Query(q: Query, username: string, friends: set<string>, phrases: seq<string>, maxResults: int, ghost items: set<Item>)
      returns (r: Results)
      requires Indexes(termMap, items) && forall i :: i in items ==> ValidItem(i)
      ensures r == IndexError <==> HasInclusionTerms(q) && NothingToLookUp(q)
      ensures !HasInclusionTerms(q) ==> r == Listed({}, {})
      ensures HasInclusionTerms(q) && r.Listed? ==>
                IsSelection(r.visible + r.locked, Expected(termMap, items, q, phrases), maxResults)
      ensures HasInclusionTerms(q) && r.Listed? && IsComplete(termMap, q) ==>
                IsSelection(r.visible + r.locked, FullScan(items, q, phrases), maxResults)
      ensures r.Listed? ==> r.visible !! r.locked
      ensures r.Listed? ==> forall i :: i in r.visible + r.locked ==>
                (i in r.locked <==>
                   username != "" &&
                   ((i.directory.mode == Friends && username !in friends) ||
                    (i.directory.mode == Users && username !in i.directory.users)))
      ensures IsPlainQuery(q) && q.includeTerms != {} ==>
                && r.Listed?
                && (forall i :: i in r.visible + r.locked ==> i in items && HasTheWords(q, i) && !HasAPhrase(phrases, i))
                && (|r.visible + r.locked| < maxResults ==>
                      forall i :: i in items && HasTheWords(q, i) && !HasAPhrase(phrases, i) ==> i in r.visible + r.locked)
    {
      if !HasInclusionTerms(q) {
        return Listed({}, {});
      }
      PlainCanBeLookedUp(termMap, q);
      var kept := Search(q, phrases, maxResults, items);
      if kept == None {
        return IndexError;
      }
      var visible, locked := Partition(kept.value, username, friends);
      r := Listed(visible, locked);
      if IsPlainQuery(q) {
        PlainQueryFinds(q, phrases, items, kept.value, maxResults);
      }
    }
  }

  /** Some of the items, all of them when they are fewer than the maximum, which at least one item may reach. */
  predicate IsSelection(kept: set<Item>, matching: set<Item>, maxResults: int)
  {
    && kept <= matching
    && (|kept| < maxResults ==> kept == matching)
    && |kept| <= (if maxResults < 1 then 1 else maxResults)
  }

  // ---------------------------------------------------------------- collecting terms

  function Elements(terms: seq<string>): set<string>
  {
    set w | w in terms
  }

  lemma ElementsOne(w: string)
    ensures Elements([w]) == {w}
  {
  }

  lemma ElementsAppend(a: seq<string>, b: seq<string>)
    ensures Elements(a + b) == Elements(a) + Elements(b)
  {
  }

  function WildcardWords(m: TermMap, q: Query): set<string>
  {
    WildcardRest(q) + WildcardFirst(m, q)
  }

  lemma IncludeMore(q: Query, todo: set<string>, term: string)
    requires todo <= q.includeTerms && term in todo
    ensures IncludeWords(q.(includeTerms := q.includeTerms - (todo - {term}))) ==
            IncludeWords(q.(includeTerms := q.includeTerms - todo)) + Words(term)
  {
    assert q.includeTerms - (todo - {term}) == (q.includeTerms - todo) + {term};
  }

  lemma WildcardMore(m: TermMap, q: Query, todo: set<string>, term: string)
    requires todo <= q.wildcardTerms && term in todo
    ensures WildcardWords(m, q.(wildcardTerms := q.wildcardTerms - (todo - {term}))) ==
            WildcardWords(m, q.(wildcardTerms := q.wildcardTerms - todo)) +
            (if First(term) == [] then {} else set w | w in m && EndsWith(w, First(term))) + Rest(term)
  {
    assert q.wildcardTerms - (todo - {term}) == (q.wildcardTerms - todo) + {term};
  }

  // ---------------------------------------------------------------- from the index to the result

  lemma ScanMonotone(some: set<Item>, all: set<Item>, q: Query, phrases: seq<string>)
    requires some <= all
    ensures FullScan(some, q, phrases) <= FullScan(all, q, phrases)
  {
  }

  lemma ScanMore(items: set<Item>, q: Query, phrases: seq<string>, i: Item)
    ensures FullScan(items + {i}, q, phrases) ==
            FullScan(items, q, phrases) + if Matches(q, phrases, i) then {i} else {}
  {
  }

  /** i has all the terms. */
  predicate InAll(m: TermMap, terms: seq<string>, i: Item)
  {
    forall w :: w in Elements(terms) ==> w in m && i in m[w]
  }

  lemma InAllMore(m: TermMap, terms: seq<string>, w: string, i: Item)
    ensures InAll(m, terms + [w], i) <==> InAll(m, terms, i) && w in m && i in m[w]
  {
    ElementsAppend(terms, [w]);
    ElementsOne(w);
  }

  /** No term of the query has a word, which parsing rules out. */
  predicate NothingToLookUp(q: Query)
  {
    IncludeWords(q) == {} && WildcardRest(q) == {} && forall term :: term in q.wildcardTerms ==> First(term) == []
  }

  lemma ParsedCanBeLookedUp(query: string)
    requires HasInclusionTerms(Parsed(query))
    ensures !NothingToLookUp(Parsed(query))
  {
    var q := Parsed(query);
    if q.includeTerms != {} {
      var term :| term in q.includeTerms;
      ParsedTermsHaveWords(query, term);
      var w :| w in Words(term);
      assert w in IncludeWords(q);
    } else {
      var term :| term in q.wildcardTerms;
      ParsedTermsHaveWords(query, term);
      var w :| w in Words(term);
      assert Pieces(term) == [First(term)] + Pieces(term)[1..];
      assert w == First(term) || w in Rest(term);
      assert w in Rest(term) ==> w in WildcardRest(q);
    }
  }

  lemma PlainCanBeLookedUp(m: TermMap, q: Query)
    ensures IsPlainQuery(q) ==> IsComplete(m, q) && (q.includeTerms != {} ==> !NothingToLookUp(q))
  {
    if IsPlainQuery(q) && q.includeTerms != {} {
      var t :| t in q.includeTerms;
      assert t in q.includeTerms + q.excludeTerms;
      PlainFirst(t);
      assert t in Words(t);
      assert t in IncludeWords(q);
    }
  }

  /** With the index terms present, none of them means that there is nothing to look up. */
  lemma TermsToLookUp(m: TermMap, q: Query)
    requires forall term :: term in q.wildcardTerms ==> HasEnding(m, term)
    ensures AskedFor(m, q) == {} <==> NothingToLookUp(q)
  {
    if !NothingToLookUp(q) && IncludeWords(q) == {} && WildcardRest(q) == {} {
      var term :| term in q.wildcardTerms && First(term) != [];
      var w :| w in m && EndsWith(w, First(term));
      assert w in WildcardFirst(m, q);
    }
  }

  /** When the index lacks a term of the query, it gives no item. */
  lemma MissingMeansNone(q: Query, phrases: seq<string>, m: TermMap, items: set<Item>)
    requires (exists w :: w in IncludeWords(q) + WildcardRest(q) && w !in m) ||
             (exists term :: term in q.wildcardTerms && First(term) != [] && forall w :: w in m ==> !EndsWith(w, First(term)))
    ensures Expected(m, items, q, phrases) == {} && !NothingToLookUp(q)
  {
    if w :| w in IncludeWords(q) + WildcardRest(q) && w !in m {
      assert w in AskedFor(m, q);
    } else {
      var term :| term in q.wildcardTerms && First(term) != [] && forall w :: w in m ==> !EndsWith(w, First(term));
      assert !HasEnding(m, term);
    }
  }

  lemma FoundAreExpected(m: TermMap, items: set<Item>, q: Query, phrases: seq<string>, terms: seq<string>, found: set<Item>)
    requires Indexes(m, items) && terms != [] && Elements(terms) == AskedFor(m, q)
    requires forall term :: term in q.wildcardTerms ==> HasEnding(m, term)
    requires forall i :: i in found <==> InAll(m, terms, i)
    ensures FullScan(found, q, phrases) == Expected(m, items, q, phrases)
  {
    assert terms[0] in Elements(terms);
    forall i ensures i in FullScan(found, q, phrases) <==> i in Expected(m, items, q, phrases) {
    }
  }

  /** A query in lower case, for whose wildcard terms, if it has any, the endings agree. */
  ghost predicate IsComplete(m: TermMap, q: Query)
  {
    IsLower(q) && forall term :: term in q.wildcardTerms ==> EndingsAgree(m, First(term))
  }

  lemma CompleteIfLower(m: TermMap, items: set<Item>, q: Query, phrases: seq<string>)
    requires Indexes(m, items) && forall i :: i in items ==> ValidItem(i)
    ensures IsComplete(m, q) ==> Expected(m, items, q, phrases) == FullScan(items, q, phrases)
  {
    if IsComplete(m, q) {
      CompleteWhenEndingsAgree(m, items, q, phrases);
    }
  }

  // ---------------------------------------------------------------- a wildcard query that misses items

  /** A name of letters and digits in lower case, in the top directory of a share. */
  predicate IsPlain(name: string)
  {
    name != [] && AllAlnum(name) && Lower(name) == name
  }

  lemma PlainItem(i: Item)
    requires i.subdir == "" && IsPlain(i.filename)
    ensures QueryPath(i) == i.filename && Words(IndexPath(i)) == {i.filename} && ValidItem(i)
  {
    PlainNormalizes(i.filename);
    assert i.subdir + i.filename == i.filename;
    SlashWords(i.subdir, i.filename);
    assert Lower(i.subdir) == [];
    NoWords();
    forall t ensures t in Words(i.filename) <==> t == i.filename {
      WordsAreRuns(i.filename, t);
      OnlyWord(i.filename, t);
    }
  }

  lemma {:induction false} PlainCollapses(name: string)
    requires AllAlnum(name)
    ensures Collapse(name) == name
  {
    if name != [] {
      PlainCollapses(name[1..]);
    }
  }

  lemma PlainNormalizes(name: string)
    requires IsPlain(name)
    ensures Normalize(name) == name
  {
    PlainCollapses(name);
  }

  lemma PlainFoundWild(name: string, term: string)
    requires IsPlain(name) && EndsWith(name, term)
    ensures FoundWild(name, term)
  {
    assert FoundWildAt(name, term, 0, |name| - |term|);
  }

  lemma PlainMatches(i: Item, term: string)
    requires i.subdir == "" && IsPlain(i.filename) && EndsWith(i.filename, term) && Lower(term) == term
    ensures Matches(Query({}, {}, {term}), [], i)
  {
    PlainItem(i);
    PlainFoundWild(i.filename, term);
  }

  lemma EndingIsAskedFor(m: TermMap, term: string, w: string)
    requires AllAlnum(term) && term != [] && w in m && EndsWith(w, term)
    ensures w in AskedFor(m, Query({}, {}, {term}))
  {
    PlainFirst(term);
    assert term in Query({}, {}, {term}).wildcardTerms;
  }

  /** Both names end with the term, and each lacks the index term of the other. */
  lemma TwoEndings(d: Directory, m: TermMap, a: string, b: string, term: string)
    requires IsPlain(a) && IsPlain(b) && a != b && IsPlain(term) && EndsWith(a, term) && EndsWith(b, term)
    requires Indexes(m, {Item(d, "", a), Item(d, "", b)})
    ensures var items := {Item(d, "", a), Item(d, "", b)}; var q := Query({}, {}, {term});
            FullScan(items, q, []) == items && Expected(m, items, q, []) == {}
  {
    var x, y := Item(d, "", a), Item(d, "", b);
    PlainItem(x);
    PlainItem(y);
    PlainMatches(x, term);
    PlainMatches(y, term);
    assert a in Words(IndexPath(x)) && b in Words(IndexPath(y));
    EndingIsAskedFor(m, term, a);
    EndingIsAskedFor(m, term, b);
    assert y !in m[a] && x !in m[b];
  }

  lemma NamesArePlain(a: string, b: string, term: string)
    requires a == "xab" && b == "yab" && term == "ab"
    ensures IsPlain(a) && IsPlain(b) && a != b && IsPlain(term) && EndsWith(a, term) && EndsWith(b, term)
    ensures Lower(term) == term && "*" + term == "*ab"
  {
    assert a[0] != b[0];
    assert a[1..] == term && b[1..] == term;
    assert Lower(a) == a && Lower(b) == b && Lower(term) == term;
  }

  /** The query *ab matches the files xab and yab by its pattern and finds neither. */
  lemma WildcardMissesItems(d: Directory, m: TermMap)
    requires Indexes(m, {Item(d, "", "xab"), Item(d, "", "yab")})
    ensures var items := {Item(d, "", "xab"), Item(d, "", "yab")};
            FullScan(items, Parsed("*ab"), []) == items && Expected(m, items, Parsed("*ab"), []) == {}
  {
    NamesArePlain("xab", "yab", "ab");
    TwoEndings(d, m, "xab", "yab", "ab");
    ParsedWord("ab");
  }
}
