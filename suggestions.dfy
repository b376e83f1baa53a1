/** The suggestion engine: the commands of the index that the query matches,
    in index order, of which the first twenty are shown. */
module SuggestionEngine {
  import opened Matcher
  import opened CommandIndex

  /** How many suggestion buttons are built at most. */
  const MaxSuggestions: nat := 20

  /** `[command for command in commands if subseqmatch(text, command)]`. */
  ghost function MatchingCommands(text: string, commands: seq<string>): (r: seq<string>)
    ensures |r| <= |commands|
    ensures forall c :: c in r ==> c in commands && Matches(text, c)
  {
    if commands == [] then []
    else
      var last := commands[|commands| - 1];
      MatchingCommands(text, commands[..|commands| - 1]) + (if Matches(text, last) then [last] else [])
  }

  /** `matches[:20]`: what the suggestion box shows after a refresh. */
  ghost function Suggestions(text: string, commands: seq<string>): (r: seq<string>)
    ensures |r| <= MaxSuggestions
    ensures r <= MatchingCommands(text, commands)
    ensures |r| == MaxSuggestions || r == MatchingCommands(text, commands)
  {
    var matches := MatchingCommands(text, commands);
    if |matches| <= MaxSuggestions then matches else matches[..MaxSuggestions]
  }

  /** The filtering pass of `refresh_suggestions`: one call of the matcher
      per command, keeping the commands it accepts in index order. */
  method MatchCommands(text: string, commands: seq<string>) returns (matches: seq<string>)
    ensures matches == MatchingCommands(text, commands)
  {
    matches := [];
    for i := 0 to |commands|
      invariant matches == MatchingCommands(text, commands[..i])
    {
      assert commands[..i + 1][..i] == commands[..i];
      var ok := SubseqMatch(text, commands[i]);
      if ok {
        matches := matches + [commands[i]];
      }
    }
    assert commands[..|commands|] == commands;
  }

  /** Every command that the query matches is kept. */
  lemma {:induction false} MatchingCommandsComplete(text: string, commands: seq<string>, c: string)
    requires c in commands && Matches(text, c)
    ensures c in MatchingCommands(text, commands)
  {
    var n := |commands|;
    if commands[n - 1] != c {
      assert c in commands[..n - 1] by {
        var i :| 0 <= i < n && commands[i] == c;
        assert commands[..n - 1][i] == c;
      }
      MatchingCommandsComplete(text, commands[..n - 1], c);
    }
  }

  /** The kept commands appear in the same relative order as in the index:
      no re-ranking. */
  lemma {:induction false} MatchingCommandsInIndexOrder(text: string, commands: seq<string>)
    ensures IsSubsequence(MatchingCommands(text, commands), commands)
  {
    if commands == [] {
      assert Embeds([], commands, []);
    } else {
      var n := |commands| - 1;
      MatchingCommandsInIndexOrder(text, commands[..n]);
      var prefix := MatchingCommands(text, commands[..n]);
      var idx :| Embeds(prefix, commands[..n], idx);
      if Matches(text, commands[n]) {
        EmbedsSnoc(prefix, commands, idx, n);
        assert Embeds(MatchingCommands(text, commands), commands, idx + [n]);
      } else {
        EmbedsWiden(prefix, commands, idx, n);
        assert Embeds(MatchingCommands(text, commands), commands, idx);
      }
    }
  }

  /** On an ascending index the matches are ascending too. */
  lemma {:induction false} MatchingCommandsAscending(text: string, commands: seq<string>)
    requires StrictlyAscending(commands)
    ensures StrictlyAscending(MatchingCommands(text, commands))
  {
    if commands != [] {
      var n := |commands|;
      var init := commands[..n - 1];
      MatchingCommandsAscending(text, init);
      var prefix := MatchingCommands(text, init);
      if Matches(text, commands[n - 1]) {
        var r := prefix + [commands[n - 1]];
        forall i, j | 0 <= i < j < |r| ensures KeyLess(r[i], r[j]) {
          if j == |r| - 1 {
            assert r[i] in init;
            var k :| 0 <= k < n - 1 && init[k] == r[i];
            assert commands[k] == r[i];
          } else {
            assert r[i] == prefix[i] && r[j] == prefix[j];
          }
        }
      }
    }
  }

  /** The matches are fully characterised: on an ascending index, any
      ascending sequence holding exactly the matching commands is the match
      list. */
  lemma MatchingCommandsUnique(text: string, commands: seq<string>, r: seq<string>)
    requires StrictlyAscending(commands) && StrictlyAscending(r)
    requires forall c :: c in r <==> c in commands && Matches(text, c)
    ensures r == MatchingCommands(text, commands)
  {
    var m := MatchingCommands(text, commands);
    MatchingCommandsAscending(text, commands);
    forall c | c in commands && Matches(text, c) ensures c in m {
      MatchingCommandsComplete(text, commands, c);
    }
    assert Elements(r) == Elements(m);
    AscendingIsUnique(r, m);
  }

  /** With an empty query nothing matches, so no suggestion is shown. */
  lemma {:induction false} EmptyQueryMatchesNothing(commands: seq<string>)
    ensures MatchingCommands("", commands) == []
  {
    if commands != [] {
      EmptyQueryMatchesNothing(commands[..|commands| - 1]);
    }
  }

  /** Typing one more character never brings back a command that the
      shorter, non-empty query had filtered out. */
  lemma ExtendedQueryKeepsFewer(text: string, c: char, commands: seq<string>, cmd: string)
    requires text != []
    requires cmd in MatchingCommands(text + [c], commands)
    ensures cmd in MatchingCommands(text, commands)
  {
    ExtendedQueryNarrows(text, c, cmd);
    MatchingCommandsComplete(text, commands, cmd);
  }

  /** The suggestion box is non-empty exactly when some command matches. */
  lemma SuggestionsEmptyIff(text: string, commands: seq<string>)
    ensures Suggestions(text, commands) == [] <==> MatchingCommands(text, commands) == []
  {
  }

  /** What the suggestion box shows: at most twenty commands of the index,
      each matched by the query, in index order. */
  lemma SuggestionsSound(text: string, commands: seq<string>)
    requires StrictlyAscending(commands)
    ensures StrictlyAscending(Suggestions(text, commands))
    ensures forall c :: c in Suggestions(text, commands) ==> c in commands && Matches(text, c)
  {
    MatchingCommandsAscending(text, commands);
    var s := Suggestions(text, commands);
    var m := MatchingCommands(text, commands);
    forall c | c in s ensures c in m {
      var i :| 0 <= i < |s| && s[i] == c;
      assert m[i] == c;
    }
  }

  /** "ls" matches "ls" and "lsblk" but not "cat". */
  lemma LsMatches()
    ensures Matches("ls", "ls") && Matches("ls", "lsblk") && !Matches("ls", "cat")
  {
    assert Embeds("ls", "ls", [0, 1]);
    assert Embeds("ls", "lsblk", [0, 1]);
    var cat := "cat";
    SubsequenceHead("ls", cat);
    assert 'l' !in cat by {
      assert cat == ['c', 'a', 't'];
    }
  }

  /** The search "ls" over the index ["ls", "cat", "lsblk"] suggests
      "ls" and "lsblk". */
  lemma LsExample()
    ensures MatchingCommands("ls", ["ls", "cat", "lsblk"]) == ["ls", "lsblk"]
  {
    LsMatches();
    var cs := ["ls", "cat", "lsblk"];
    assert MatchingCommands("ls", cs[..1]) == ["ls"] by {
      assert cs[..1][..0] == [];
    }
    assert MatchingCommands("ls", cs[..2]) == ["ls"] by {
      assert cs[..2][..1] == cs[..1];
    }
    assert cs[..3][..2] == cs[..2];
  }
}
