/** The command index: the names of the executable files found in the
    directories of the search path, without duplicates, ordered shortest
    first and, within one length, by code point order. */
module CommandIndex {

  /** One entry of a directory listing: its base name, whether it is a
      regular file, and whether the current user may execute it. */
  datatype DirEntry = DirEntry(name: string, isFile: bool, isExecutable: bool)

  /** One component of the search path: either not an existing directory,
      or a directory with its listing. */
  datatype SearchDir = NotADirectory | Directory(entries: seq<DirEntry>)

  /** The names that one listing contributes. */
  function ListingNames(entries: seq<DirEntry>): set<string> {
    set e | e in entries && e.isFile && e.isExecutable :: e.name
  }

  /** The names that the whole search path contributes. */
  function PathNames(path: seq<SearchDir>): set<string> {
    if path == [] then {}
    else
      var last := path[|path| - 1];
      PathNames(path[..|path| - 1]) + (if last.Directory? then ListingNames(last.entries) else {})
  }

  /** Code point order on strings, as Python's `<` on `str`: the first
      differing character decides, and a proper prefix comes first. */
  predicate LexLess(a: string, b: string) {
    if a == [] then b != []
    else b != [] && (a[0] < b[0] || (a[0] == b[0] && LexLess(a[1..], b[1..])))
  }

  /** The sort key `(len(c), c)` compared as a tuple. */
  predicate KeyLess(a: string, b: string) {
    |a| < |b| || (|a| == |b| && LexLess(a, b))
  }

  /** Every earlier name has a strictly smaller key than every later one. */
  predicate StrictlyAscending(s: seq<string>) {
    forall i, j :: 0 <= i < j < |s| ==> KeyLess(s[i], s[j])
  }

  function Elements(s: seq<string>): set<string> {
    set x | x in s
  }

  lemma {:induction false} LexLessIrreflexive(a: string)
    ensures !LexLess(a, a)
  {
    if a != [] {
      LexLessIrreflexive(a[1..]);
    }
  }

  lemma {:induction false} LexLessTransitive(a: string, b: string, c: string)
    requires LexLess(a, b) && LexLess(b, c)
    ensures LexLess(a, c)
  {
    if a != [] && a[0] == b[0] && b[0] == c[0] {
      LexLessTransitive(a[1..], b[1..], c[1..]);
    }
  }

  lemma {:induction false} LexLessTotal(a: string, b: string)
    requires a != b
    ensures LexLess(a, b) || LexLess(b, a)
  {
    if a != [] && b != [] && a[0] == b[0] {
      assert a == [a[0]] + a[1..] && b == [b[0]] + b[1..];
      LexLessTotal(a[1..], b[1..]);
    }
  }

  lemma KeyLessIrreflexive(a: string)
    ensures !KeyLess(a, a)
  {
    LexLessIrreflexive(a);
  }

  lemma KeyLessTransitive(a: string, b: string, c: string)
    requires KeyLess(a, b) && KeyLess(b, c)
    ensures KeyLess(a, c)
  {
    if |a| == |b| == |c| {
      LexLessTransitive(a, b, c);
    }
  }

  lemma KeyLessTotal(a: string, b: string)
    requires a != b
    ensures KeyLess(a, b) || KeyLess(b, a)
  {
    if |a| == |b| {
      LexLessTotal(a, b);
    }
  }

  /** Inserts `x` into an ascending sequence at its place, unless it is
      already there. */
  function Insert(s: seq<string>, x: string): (r: seq<string>)
    ensures Elements(r) == Elements(s) + {x}
  {
    if s == [] then [x]
    else if x == s[0] then s
    else if KeyLess(x, s[0]) then [x] + s
    else
      var t := Insert(s[1..], x);
      ElementsCons(s[0], t);
      ElementsCons(s[0], s[1..]);
      assert [s[0]] + s[1..] == s;
      [s[0]] + t
  }

  lemma ElementsCons(a: string, t: seq<string>)
    ensures Elements([a] + t) == {a} + Elements(t)
  {
    assert forall y :: y in [a] + t <==> y == a || y in t;
  }

  lemma {:induction false} InsertAscending(s: seq<string>, x: string)
    requires StrictlyAscending(s)
    ensures StrictlyAscending(Insert(s, x))
  {
    if s == [] {
    } else if x == s[0] {
    } else if KeyLess(x, s[0]) {
      forall j | 0 < j < |s| ensures KeyLess(x, s[j]) {
        KeyLessTransitive(x, s[0], s[j]);
      }
    } else {
      KeyLessTotal(x, s[0]);
      InsertAscending(s[1..], x);
      var t := Insert(s[1..], x);
      forall y | y in t ensures KeyLess(s[0], y) {
        assert y in Elements(t);
      }
    }
  }

  /** `get_path_commands` on given listings: every executable regular file of
      every search-path directory adds its name to a set, and the set is
      sorted by the key `(len(c), c)`. */
  method GetPathCommands(path: seq<SearchDir>) returns (commands: seq<string>)
    ensures StrictlyAscending(commands)
    ensures Elements(commands) == PathNames(path)
  {
    var names: set<string> := {};
    for i := 0 to |path|
      invariant names == PathNames(path[..i])
    {
      assert path[..i + 1][..i] == path[..i];
      if path[i].NotADirectory? {
        continue;
      }
      var entries := path[i].entries;
      for j := 0 to |entries|
        invariant names == PathNames(path[..i]) + ListingNames(entries[..j])
      {
        var f := entries[j];
        if f.isFile && f.isExecutable {
          names := names + {f.name};
        }
        assert entries[..j + 1] == entries[..j] + [f];
      }
      assert entries[..|entries|] == entries;
    }
    assert path[..|path|] == path;

    // sorted(commands, key=lambda c: (len(c), c))
    commands := [];
    var rest := names;
    while rest != {}
      invariant StrictlyAscending(commands)
      invariant Elements(commands) + rest == names
      decreases |rest|
    {
      var c :| c in rest;
      InsertAscending(commands, c);
      commands := Insert(commands, c);
      rest := rest - {c};
    }
  }

  /** The index holds no name twice. */
  lemma AscendingHasNoDuplicates(s: seq<string>, i: nat, j: nat)
    requires StrictlyAscending(s) && i < j < |s|
    ensures s[i] != s[j]
  {
    KeyLessIrreflexive(s[i]);
  }

  /** A shorter name always comes before a longer one. */
  lemma ShorterNameFirst(s: seq<string>, i: nat, j: nat)
    requires StrictlyAscending(s) && i < |s| && j < |s|
    requires |s[i]| < |s[j]|
    ensures i < j
  {
  }

  /** The order is determined by the names alone: two ascending sequences
      over the same names are equal, so the index does not depend on the order
      in which directories or their entries were read. */
  lemma {:induction false} AscendingIsUnique(s: seq<string>, t: seq<string>)
    requires StrictlyAscending(s) && StrictlyAscending(t)
    requires Elements(s) == Elements(t)
    ensures s == t
  {
    ElementsEmpty(s);
    ElementsEmpty(t);
    if s != [] && t != [] {
      assert s[0] in Elements(t) && t[0] in Elements(s);
      if s[0] != t[0] {
        var i :| 0 <= i < |s| && s[i] == t[0];
        var j :| 0 <= j < |t| && t[j] == s[0];
        KeyLessTransitive(s[0], t[0], s[0]);
        KeyLessIrreflexive(s[0]);
      }
      forall x | x in Elements(s[1..]) ensures x in Elements(t[1..]) {
        AscendingTailElement(s, t, x);
      }
      forall x | x in Elements(t[1..]) ensures x in Elements(s[1..]) {
        AscendingTailElement(t, s, x);
      }
      AscendingIsUnique(s[1..], t[1..]);
      assert s == [s[0]] + s[1..] && t == [t[0]] + t[1..];
    }
  }

  lemma ElementsEmpty(s: seq<string>)
    ensures Elements(s) == {} <==> s == []
  {
    if s != [] {
      assert s[0] in Elements(s);
    }
  }

  lemma AscendingTailElement(s: seq<string>, t: seq<string>, x: string)
    requires StrictlyAscending(s) && StrictlyAscending(t) && s != [] && t != []
    requires Elements(s) == Elements(t) && s[0] == t[0]
    requires x in Elements(s[1..])
    ensures x in Elements(t[1..])
  {
    var i :| 0 <= i < |s[1..]| && s[1..][i] == x;
    KeyLessIrreflexive(s[0]);
    assert x in Elements(t);
    var j :| 0 <= j < |t| && t[j] == x;
    assert j != 0;
    assert t[1..][j - 1] == x;
  }

  /** The executables `ls`, `lsblk` and `cat` are indexed as
      ["ls", "cat", "lsblk"], whatever order they were read in. */
  lemma LsCatLsblkIndex(commands: seq<string>)
    requires StrictlyAscending(commands)
    requires Elements(commands) == {"ls", "lsblk", "cat"}
    ensures commands == ["ls", "cat", "lsblk"]
  {
    var sorted := ["ls", "cat", "lsblk"];
    assert Elements(sorted) == {"ls", "lsblk", "cat"};
    AscendingIsUnique(commands, sorted);
  }
}
