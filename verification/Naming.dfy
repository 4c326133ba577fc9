/**
 Choosing the file name for a download: the naming strategies of naming.py and their chaining. A file system
 is a map from directories to the names they list; digits are the ASCII ones.
 */
module Naming {

  import opened Wrappers
  import Text = SharesText

  type FileSystem = map<string, set<string>>

  // ---------------------------------------------------------------- decimal numbers

  predicate IsDigit(c: char)
  {
    '0' <= c <= '9'
  }

  function DigitOf(d: nat): (c: char)
    requires d < 10
    ensures IsDigit(c) && ValueOf(c) == d
  {
    '0' + d as char
  }

  function ValueOf(c: char): nat
    requires IsDigit(c)
  {
    (c - '0') as nat
  }

  predicate AllDigits(s: string)
  {
    forall i :: 0 <= i < |s| ==> IsDigit(s[i])
  }

  /** str(n) */
  function Print(n: nat): (s: string)
    ensures s != [] && AllDigits(s)
  {
    if n < 10 then [DigitOf(n)] else Print(n / 10) + [DigitOf(n % 10)]
  }

  /** int(s) */
  function Parse(s: string): nat
    requires AllDigits(s)
  {
    if s == [] then 0 else Parse(s[..|s| - 1]) * 10 + ValueOf(s[|s| - 1])
  }

  lemma {:induction false} ParsePrint(n: nat)
    ensures Parse(Print(n)) == n
  {
    if n >= 10 {
      ParsePrint(n / 10);
      assert Print(n)[..|Print(n)| - 1] == Print(n / 10);
    } else {
      assert Print(n)[..0] == [];
    }
  }

  /** A number is written with its digits, the last one for what is left over ten. */
  lemma PrintIs(n: nat)
    ensures n < 10 ==> Print(n) == ["0123456789"[n]]
    ensures n >= 10 ==> Print(n) == Print(n / 10) + Print(n % 10)
  {
    Ciphers();
  }

  lemma Ciphers()
    ensures forall d :: 0 <= d < 10 ==> "0123456789"[d] == DigitOf(d)
  {
  }

  // ---------------------------------------------------------------- the pattern of numbered names

  function DigitRun(s: string): (n: nat)
    ensures n <= |s| && AllDigits(s[..n]) && (n < |s| ==> !IsDigit(s[n]))
  {
    if s == [] || !IsDigit(s[0]) then 0 else DigitRun(s[1..]) + 1
  }

  lemma {:induction false} RunIs(s: string, d: nat)
    requires d < |s| && AllDigits(s[..d]) && !IsDigit(s[d])
    ensures DigitRun(s) == d
  {
    if d > 0 {
      assert s[..d][0] == s[0];
      assert s[1..][..d - 1] == s[..d][1..];
      RunIs(s[1..], d - 1);
    }
  }

  predicate StartsWith(s: string, prefix: string)
  {
    |prefix| <= |s| && s[..|prefix|] == prefix
  }

  /** file begins with name (N)extension, where N consists of the d digits behind the parenthesis. */
  predicate Matches(name: string, extension: string, file: string, d: nat)
  {
    var head := name + " (";
    && d > 0 && |head| + d <= |file|
    && StartsWith(file, head)
    && AllDigits(file[|head|..|head| + d])
    && StartsWith(file[|head| + d..], ")" + extension)
  }

  /** re.match of the pattern and the number in its group: all digits there are, as ) is not one. */
  function IndexOf(name: string, extension: string, file: string): Option<nat>
  {
    var head := name + " (";
    if !StartsWith(file, head) then None
    else
      var d := DigitRun(file[|head|..]);
      if !Matches(name, extension, file, d) then None else Some(Parse(file[|head|..|head| + d]))
  }

  /** Whatever number of digits lets the pattern match is the one that is taken. */
  lemma IndexOfMatch(name: string, extension: string, file: string, d: nat)
    requires Matches(name, extension, file, d)
    ensures IndexOf(name, extension, file) == Some(Parse(file[|name| + 2..|name| + 2 + d]))
  {
    var rest := file[|name + " ("|..];
    assert rest[..d] == file[|name| + 2..|name| + 2 + d];
    assert file[|name| + 2 + d..][0] == ')';
    assert rest[d] == ')';
    RunIs(rest, d);
  }

  function Numbered(name: string, extension: string, index: nat): string
  {
    name + " (" + Print(index) + ")" + extension
  }

  predicate IsNumber(s: string)
  {
    s != [] && forall k :: 0 <= k < |s| ==> s[k] in Text.DIGITS
  }

  lemma NumbersAre(s: string)
    ensures IsNumber(s) <==> s != [] && AllDigits(s)
  {
    Text.InARow();
    forall k | 0 <= k < |s| ensures s[k] in Text.DIGITS <==> IsDigit(s[k]) {
      if IsDigit(s[k]) { assert Text.DIGITS[s[k] as int - 48] == s[k]; }
    }
  }

  /** The digits count ten times as much with every digit behind them. */
  lemma ParseIs(s: string, d: nat)
    requires AllDigits(s) && d < 10
    ensures IsDigit(Text.DIGITS[d]) && Parse("") == 0 && Parse(s + [Text.DIGITS[d]]) == 10 * Parse(s) + d
  {
    Text.InARow();
    assert (s + [Text.DIGITS[d]])[..|s|] == s;
  }

  lemma Pieces(name: string, extension: string, file: string) returns (digits: string, more: string)
    requires IndexOf(name, extension, file).Some?
    ensures IsNumber(digits) && AllDigits(digits) && IndexOf(name, extension, file) == Some(Parse(digits))
    ensures file == name + " (" + digits + ")" + extension + more
  {
    var head, tail := name + " (", ")" + extension;
    var d := DigitRun(file[|head|..]);
    digits, more := file[|head|..|head| + d], file[|head| + d..][|tail|..];
    NumbersAre(digits);
    assert file == head + digits + (tail + more);
  }

  /** A name has a number exactly if it begins with the base name, the number in parentheses and the extension. */
  lemma NumberedExactly(name: string, extension: string, file: string, n: nat)
    ensures IndexOf(name, extension, file) == Some(n) <==>
            exists digits, more ::
              IsNumber(digits) && file == name + " (" + digits + ")" + extension + more && AllDigits(digits) && n == Parse(digits)
  {
    if IndexOf(name, extension, file) == Some(n) {
      var digits, more := Pieces(name, extension, file);
      assert IsNumber(digits) && file == name + " (" + digits + ")" + extension + more;
    }
    forall digits, more |
      IsNumber(digits) && file == name + " (" + digits + ")" + extension + more && AllDigits(digits) && n == Parse(digits)
      ensures IndexOf(name, extension, file) == Some(n)
    {
      TakenFrom(name, extension, digits, more, file);
    }
  }

  lemma TakenFrom(name: string, extension: string, digits: string, more: string, file: string)
    requires digits != [] && AllDigits(digits) && file == name + " (" + digits + ")" + extension + more
    ensures IndexOf(name, extension, file) == Some(Parse(digits))
  {
    var d := |digits|;
    assert Matches(name, extension, file, d) && file[|name| + 2..|name| + 2 + d] == digits by {
      BeginsNumbered(name, extension, digits, more);
    }
    IndexOfMatch(name, extension, file, d);
  }

  lemma BeginsNumbered(name: string, extension: string, digits: string, more: string)
    requires digits != [] && AllDigits(digits)
    ensures var file := name + " (" + digits + ")" + extension + more;
            Matches(name, extension, file, |digits|) && file[|name| + 2..|name| + 2 + |digits|] == digits
  {
    var head := name + " (";
    var tail := ")" + extension;
    var file := name + " (" + digits + ")" + extension + more;
    assert file == head + (digits + (tail + more));
    assert file[..|head|] == head;
    assert file[|head|..|head| + |digits|] == digits;
    assert file[|head| + |digits|..] == tail + more;
    assert (tail + more)[..|tail|] == tail;
  }

  /** A numbered name is recognised, with its number. */
  lemma NumberedIsFound(name: string, extension: string, index: nat)
    ensures IndexOf(name, extension, Numbered(name, extension, index)) == Some(index)
  {
    var file := Numbered(name, extension, index);
    assert file + [] == file;
    TakenFrom(name, extension, Print(index), [], file);
    ParsePrint(index);
  }

  // ---------------------------------------------------------------- the next free index

  ghost predicate IsLeast(s: set<nat>, x: nat)
  {
    x in s && forall y :: y in s ==> x <= y
  }

  lemma {:induction false} HasLeast(s: set<nat>) returns (x: nat)
    requires s != {}
    ensures IsLeast(s, x)
    decreases |s|
  {
    x :| x in s;
    assert forall y :: y in s ==> y == x || y in s - {x};
    if s - {x} != {} {
      var y := HasLeast(s - {x});
      if y < x { x := y; }
    }
  }

  lemma {:induction false} HasGreatest(s: set<nat>) returns (x: nat)
    requires s != {}
    ensures x in s && forall y :: y in s ==> y <= x
    decreases |s|
  {
    x :| x in s;
    assert forall y :: y in s ==> y == x || y in s - {x};
    if s - {x} != {} {
      var y := HasGreatest(s - {x});
      if y > x { x := y; }
    }
  }

  /** The smallest index from the smallest one in use on that is free; 1 when none is in use. */
  ghost predicate IsNextIndex(indices: set<nat>, next: nat)
  {
    && next !in indices
    && (indices == {} ==> next == 1)
    && forall lo: nat :: IsLeast(indices, lo) ==> lo < next && forall i: nat :: lo <= i < next ==> i in indices
  }

  function Range(lo: nat, hi: nat): (r: set<nat>)
    ensures forall i: nat :: i in r <==> lo <= i < hi
    decreases hi - lo
  {
    if lo >= hi then {} else {lo} + Range(lo + 1, hi)
  }

  method NextIndex(indices: set<nat>) returns (next: nat)
    ensures IsNextIndex(indices, next)
  {
    next := 1;
    if indices != {} {
      ghost var l := HasLeast(indices);
      ghost var h := HasGreatest(indices);
      var lo :| lo in indices && forall y :: y in indices ==> lo <= y;
      var hi :| hi in indices && forall y :: y in indices ==> y <= hi;
      var possible := Range(lo, hi + 2);
      var free := possible - indices;
      assert hi + 1 in free;
      ghost var f := HasLeast(free);
      next :| next in free && forall y :: y in free ==> next <= y;
      forall i: nat | lo <= i < next ensures i in indices {
        assert next <= hi + 1;
        assert i !in free && i in possible;
      }
    }
  }

  // ---------------------------------------------------------------- strategies

  datatype Strategy = Default | KeepDirectory | NumberDuplicates

  predicate IsSeparator(c: char)
  {
    c == '/' || c == '\\'
  }

  /** split_remote_path: the parts between separators, without the empty ones */
  function Split(path: string): seq<string>
  {
    SplitFrom(path, [])
  }

  function SplitFrom(path: string, part: string): seq<string>
  {
    var done := if part == [] then [] else [part];
    if path == [] then done
    else if IsSeparator(path[0]) then done + SplitFrom(path[1..], [])
    else SplitFrom(path[1..], part + [path[0]])
  }

  /** os.path.splitext: the last dot starts the extension, unless only dots come before it. */
  function ExtensionAt(name: string): (k: nat)
    ensures k <= |name|
  {
    var k := LastDot(name, |name|);
    if k == |name| || forall i :: 0 <= i < k ==> name[i] == '.' then |name| else k
  }

  /** The position of the last dot among the first n characters; |name| without one. */
  function LastDot(name: string, n: nat): (k: nat)
    requires n <= |name|
    ensures k <= |name|
  {
    if n == 0 then |name| else if name[n - 1] == '.' then n - 1 else LastDot(name, n - 1)
  }

  lemma {:induction false} SplitName(name: string, part: string)
    requires Text.NoSeparators(name)
    ensures SplitFrom(name, part) == if part + name == [] then [] else [part + name]
    decreases |name|
  {
    if name == [] {
      assert part + name == part;
    } else {
      SplitName(name[1..], part + [name[0]]);
      assert part + [name[0]] + name[1..] == part + name;
    }
  }

  lemma {:induction false} SplitApart(dir: string, c: char, name: string, part: string)
    requires c in {'/', '\\'}
    ensures SplitFrom(dir + [c] + name, part) == SplitFrom(dir, part) + SplitFrom(name, [])
    decreases |dir|
  {
    var path := dir + [c] + name;
    if dir == [] {
      assert path[0] == c && path[1..] == name;
    } else {
      assert path[0] == dir[0] && path[1..] == dir[1..] + [c] + name;
      SplitApart(dir[1..], c, name, if IsSeparator(dir[0]) then [] else part + [dir[0]]);
    }
  }

  /** The file name of a remote path is what stands behind the last slash or backslash, the rest is in front of it. */
  lemma FileNameIs(dir: string, c: char, name: string)
    requires c in {'/', '\\'} && Text.NoSeparators(name) && name != []
    ensures Split(dir + [c] + name) == Split(dir) + [name] && Split(name) == [name]
  {
    SplitApart(dir, c, name, []);
    SplitName(name, []);
    assert [] + name == name;
  }

  lemma {:induction false} LastDotIs(base: string, extension: string, n: nat)
    requires n <= |extension| && '.' !in extension
    ensures LastDot(base + "." + extension, |base| + 1 + n) == |base|
  {
    var name := base + "." + extension;
    if n > 0 {
      assert name[|base| + n] == extension[n - 1];
      LastDotIs(base, extension, n - 1);
    } else {
      assert name[|base|] == '.';
    }
  }

  lemma {:induction false} NoDot(name: string, n: nat)
    requires n <= |name| && '.' !in name
    ensures LastDot(name, n) == |name|
  {
    if n > 0 {
      NoDot(name, n - 1);
    }
  }

  /** The extension begins at the last dot; a name without one, or that has only dots in front of it, has none. */
  lemma ExtensionIs(base: string, extension: string)
    requires '.' !in extension
    ensures var name := base + "." + extension;
            ExtensionAt(name) == if exists i :: 0 <= i < |base| && base[i] != '.' then |base| else |name|
    ensures ExtensionAt(extension) == |extension|
  {
    var name := base + "." + extension;
    LastDotIs(base, extension, |extension|);
    NoDot(extension, |extension|);
    assert forall i :: 0 <= i < |base| ==> name[i] == base[i];
  }

  /** os.path.exists of a name in a directory; the empty name stands for the directory itself. */
  predicate Exists(fs: FileSystem, dir: string, name: string)
  {
    dir in fs && (name in fs[dir] || name in {"", ".", ".."})
  }

  /** A directory name that KeepDirectory leaves out: one that starts with @@ or like a Windows drive. */
  predicate IsIgnored(contained: string)
  {
    || StartsWith(contained, "@@")
    || (|contained| >= 2 && ('a' <= contained[0] <= 'z' || 'A' <= contained[0] <= 'Z') && contained[1] == ':')
  }

  datatype Location = Location(dir: string, name: string)

  /** Files of a directory whose names are numbered versions of a name. */
  function Indices(listing: set<string>, name: string, extension: string): set<nat>
  {
    set f | f in listing && IndexOf(name, extension, f).Some? :: IndexOf(name, extension, f).value
  }

  /** What a strategy makes of a location. */
  ghost predicate IsApplied(s: Strategy, fs: FileSystem, remotePath: string, at: Location, to: Location)
  {
    var parts := Split(remotePath);
    match s
    case Default => parts != [] && to == Location(at.dir, parts[|parts| - 1])
    case KeepDirectory =>
      parts != [] &&
      to == if |parts| == 1 || IsIgnored(parts[|parts| - 2]) then at else Location(at.dir + "/" + parts[|parts| - 2], at.name)
    case NumberDuplicates =>
      var k := ExtensionAt(at.name);
      at.dir in fs && to.dir == at.dir &&
      exists next :: IsNextIndex(Indices(fs[at.dir], at.name[..k], at.name[k..]), next) &&
                     to.name == Numbered(at.name[..k], at.name[k..], next)
  }

  predicate ShouldApply(s: Strategy, fs: FileSystem, at: Location)
  {
    s == NumberDuplicates ==> Exists(fs, at.dir, at.name)
  }

  /** NumberDuplicateStrategy.apply */
  method NumberDuplicate(fs: FileSystem, at: Location) returns (to: Location)
    requires at.dir in fs
    ensures IsApplied(NumberDuplicates, fs, "", at, to)
    ensures to.dir == at.dir && to.name !in fs[at.dir]
  {
    var k := ExtensionAt(at.name);
    var filename, extension := at.name[..k], at.name[k..];
    var indices: set<nat> := {};
    var todo := fs[at.dir];
    while todo != {}
      invariant todo <= fs[at.dir] && indices == Indices(fs[at.dir] - todo, filename, extension)
    {
      var file :| file in todo;
      todo := todo - {file};
      assert fs[at.dir] - todo == (fs[at.dir] - (todo + {file})) + {file};
      match IndexOf(filename, extension, file) {
        case None =>
        case Some(i) => indices := indices + {i};
      }
    }
    assert fs[at.dir] - todo == fs[at.dir];
    var next := NextIndex(indices);
    to := Location(at.dir, Numbered(filename, extension, next));
    FreeIndexIsFreeName(fs[at.dir], filename, extension, next);
  }

  /** An index that is not in use makes a name that is not listed. */
  lemma FreeIndexIsFreeName(listing: set<string>, name: string, extension: string, index: nat)
    ensures Numbered(name, extension, index) in listing ==> index in Indices(listing, name, extension)
  {
    NumberedIsFound(name, extension, index);
  }

  /** A duplicate without numbered siblings gets the number one, between its base name and its extension. */
  lemma FirstDuplicate(fs: FileSystem, remotePath: string, dir: string, base: string, extension: string, to: Location)
    requires '.' !in extension && (exists i :: 0 <= i < |base| && base[i] != '.')
    requires IsApplied(NumberDuplicates, fs, remotePath, Location(dir, base + "." + extension), to)
    requires forall f :: f in fs[dir] ==> IndexOf(base, "." + extension, f) == None
    ensures to == Location(dir, base + " (1)." + extension)
  {
    var name := base + "." + extension;
    ExtensionIs(base, extension);
    var k := |base|;
    assert name[..k] == base && name[k..] == "." + extension;
    assert Indices(fs[dir], base, "." + extension) == {};
    PrintIs(1);
    assert Numbered(base, "." + extension, 1) == base + " (1)." + extension;
  }

  /** The containing directory is kept, unless it is marked with @@ or is a drive. */
  lemma DirectoryIsKept(fs: FileSystem, dir: string, c: char, kept: string, c': char, name: string, at: Location, to: Location)
    requires c in {'/', '\\'} && c' in {'/', '\\'} && Text.NoSeparators(kept) && kept != [] && Text.NoSeparators(name) && name != []
    requires IsApplied(KeepDirectory, fs, dir + [c] + kept + [c'] + name, at, to)
    ensures to == if |kept| >= 2 && (kept[..2] == "@@" || (kept[1] == ':' && (kept[0] in Text.LOWER_CASE || kept[0] in Text.UPPER_CASE)))
                  then at else Location(at.dir + "/" + kept, at.name)
  {
    FileNameIs(dir, c, kept);
    FileNameIs(dir + [c] + kept, c', name);
    var parts := Split(dir + [c] + kept + [c'] + name);
    assert parts == Split(dir) + [kept] + [name] && parts[|parts| - 2] == kept;
    LettersAre(kept[0]);
  }

  lemma LettersAre(c: char)
    ensures c in Text.LOWER_CASE || c in Text.UPPER_CASE <==> 'a' <= c <= 'z' || 'A' <= c <= 'Z'
  {
    Text.InARow();
    var n := c as int;
    if 97 <= n < 123 {
      assert Text.LOWER_CASE[n - 97] == c;
    } else if 65 <= n < 91 {
      assert Text.UPPER_CASE[n - 65] == c;
    }
  }

  // ---------------------------------------------------------------- chains

  /** The locations a chain goes through, one after each strategy. */
  ghost predicate IsChain(strategies: seq<Strategy>, fs: FileSystem, remotePath: string, locations: seq<Location>)
  {
    && |locations| == |strategies| + 1
    && forall k :: 0 <= k < |strategies| ==>
      if ShouldApply(strategies[k], fs, locations[k])
      then IsApplied(strategies[k], fs, remotePath, locations[k], locations[k + 1])
      else locations[k + 1] == locations[k]
  }

  /** Applying one strategy; the remote path has a part. */
  method Apply(s: Strategy, fs: FileSystem, remotePath: string, at: Location) returns (to: Location)
    requires Split(remotePath) != [] && ShouldApply(s, fs, at)
    ensures IsApplied(s, fs, remotePath, at, to)
  {
    var parts := Split(remotePath);
    match s {
      case Default => to := Location(at.dir, parts[|parts| - 1]);
      case KeepDirectory =>
        if |parts| == 1 || IsIgnored(parts[|parts| - 2]) {
          to := at;
        } else {
          to := Location(at.dir + "/" + parts[|parts| - 2], at.name);
        }
      case NumberDuplicates => to := NumberDuplicate(fs, at);
    }
  }

  /** chain_strategies */
  method ChainStrategies(strategies: seq<Strategy>, fs: FileSystem, remotePath: string, localDir: string)
    returns (to: Location, ghost locations: seq<Location>)
    requires Split(remotePath) != []
    ensures IsChain(strategies, fs, remotePath, locations)
    ensures locations[0] == Location(localDir, "") && locations[|strategies|] == to
  {
    to := Location(localDir, "");
    locations := [to];
    for k := 0 to |strategies|
      invariant |locations| == k + 1 && locations[0] == Location(localDir, "") && locations[k] == to
      invariant IsChain(strategies[..k], fs, remotePath, locations)
    {
      ghost var before := locations;
      assert strategies[..k + 1] == strategies[..k] + [strategies[k]];
      if ShouldApply(strategies[k], fs, to) {
        to := Apply(strategies[k], fs, remotePath, to);
      }
      locations := locations + [to];
      forall j | 0 <= j < k + 1
        ensures if ShouldApply(strategies[j], fs, locations[j])
                then IsApplied(strategies[j], fs, remotePath, locations[j], locations[j + 1])
                else locations[j + 1] == locations[j]
      {
        assert j < k ==> strategies[..k][j] == strategies[j] && locations[j] == before[j] && locations[j + 1] == before[j + 1];
      }
    }
    assert strategies[..|strategies|] == strategies;
  }

  /**
   A chain that ends by numbering duplicates, as the default one does, never arrives at a name that its
   directory lists, whatever strategies come before.
   */
  lemma ChainAvoidsListedNames(strategies: seq<Strategy>, fs: FileSystem, remotePath: string, locations: seq<Location>)
    requires IsChain(strategies, fs, remotePath, locations)
    requires strategies != [] && strategies[|strategies| - 1] == NumberDuplicates
    ensures var to := locations[|strategies|]; to.dir in fs ==> to.name !in fs[to.dir]
  {
    var at, to := locations[|strategies| - 1], locations[|strategies|];
    if ShouldApply(NumberDuplicates, fs, at) {
      assert IsApplied(NumberDuplicates, fs, remotePath, at, to);
      var k := ExtensionAt(at.name);
      var next :| IsNextIndex(Indices(fs[at.dir], at.name[..k], at.name[k..]), next) &&
                  to.name == Numbered(at.name[..k], at.name[k..], next);
      FreeIndexIsFreeName(fs[at.dir], at.name[..k], at.name[k..], next);
    }
  }

  /** The default chain keeps the name of the remote file when it is free. */
  lemma DefaultChainKeepsFreeName(fs: FileSystem, remotePath: string, locations: seq<Location>)
    requires IsChain([Default, NumberDuplicates], fs, remotePath, locations) && Split(remotePath) != []
    ensures var parts := Split(remotePath); var name := parts[|parts| - 1]; var dir := locations[0].dir;
            name !in {"", ".", ".."} && (dir !in fs || name !in fs[dir]) ==> locations[2] == Location(dir, name)
  {
    assert IsApplied(Default, fs, remotePath, locations[0], locations[1]);
  }

  /** When it is not free, and no sibling is numbered, the default chain puts a one behind its base name. */
  lemma DefaultChainNumbers(fs: FileSystem, dir: string, c: char, base: string, extension: string, locations: seq<Location>)
    requires c in {'/', '\\'} && '.' !in extension && (exists i :: 0 <= i < |base| && base[i] != '.')
    requires Text.NoSeparators(base + "." + extension)
    requires IsChain([Default, NumberDuplicates], fs, dir + [c] + (base + "." + extension), locations)
    requires var at := locations[0].dir;
             at in fs && base + "." + extension in fs[at] &&
             forall f :: f in fs[at] ==> IndexOf(base, "." + extension, f) == None
    ensures locations[2] == Location(locations[0].dir, base + " (1)." + extension)
  {
    var remotePath := dir + [c] + (base + "." + extension);
    FileNameIs(dir, c, base + "." + extension);
    assert IsApplied(Default, fs, remotePath, locations[0], locations[1]);
    assert IsApplied(NumberDuplicates, fs, remotePath, locations[1], locations[2]);
    FirstDuplicate(fs, remotePath, locations[0].dir, base, extension, locations[2]);
  }
}
