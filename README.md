# proslenkey launcher core, modelled in Dafny

proslenkey is an on-screen command launcher: one text entry, and beside it a
strip of buttons suggesting executable names from the search path. Typing
filters the suggestions by ordered-subsequence matching. Return in the entry
runs the typed line through the shell. A suggestion can be run directly with
Return or a click, or copied, quoted, into the entry with Control+Return or
Control+click.

This project models the logic of `src/__main__.py`, split into four modules:

- `Matcher` (`matcher.dfy`): `subseqmatch`. It is a method with the source's
  `pos` cursor loop. `str.find` is a recursive function, `Find`. The method is
  proved equal to the declarative statement "a non-empty query whose
  characters occur in the candidate at strictly increasing indices"
  (`Matches`, built on `Embeds` and `IsSubsequence`). The loop invariant is
  that `pos` is the greedy, earliest match of the query prefix.
- `CommandIndex` (`command_index.dfy`): the set-then-sort step of
  `get_path_commands`. The search path is given as a sequence of `SearchDir`
  values. A component is `NotADirectory` or a `Directory` with its entries, and
  each entry carries its name and whether it is an executable regular file.
  The nested loops add names to a set. The set is then ordered by the key
  `(len(c), c)`, compared as a tuple, with Python's code-point string order.
  The result is proved strictly ascending, free of duplicates, shortest names
  first, and determined by the set of names alone.
- `SuggestionEngine` (`suggestions.dfy`): the filter in `refresh_suggestions`
  (`MatchingCommands`, computed by the method `MatchCommands`) and the
  `[:20]` cut (`Suggestions`). The lemmas show the following. The kept
  commands are exactly the matching ones. They keep the index order (an
  order-preserving subsequence, with no re-ranking). An empty query shows
  nothing. At most twenty are shown.
- `InputRouter` (`launcher.dfy`): the `Launcher` class. Its fields are the
  entry text, the focus (entry, suggestion *i*, or none just after the focused
  button was destroyed), the shown suggestions, the strip's visibility, the
  entry's `hexpand`, the quit flag, and a log of launch requests. The methods
  are the source's handlers. `Valid()` ties the displayed state to the text:
  - the shown suggestions are `Suggestions(text, commands)`;
  - the strip is visible exactly when something matches;
  - `hexpand` is the negation of that visibility.
  Every handler keeps `Valid()`, and its `ensures` say whether it edits the
  text or launches a command. Small client methods use only these contracts
  to check the documented behaviour. `PickWithControlReturn`, `RunWithReturn`,
  `TypeWhileBrowsing` and the other suggestion scenarios work on the index
  `ls`, `cat`, `lsblk`. `ActivateEntry` and `ActivateBlankEntry` work on an
  empty search path, since Return in the entry does not use the index.

Behaviour that follows the code and is easy to misread:

- Control is tested by equality with `CONTROL_MASK`, not by a bit test. So
  Control+Shift+Return, or Control+Return with Caps Lock on, launches the
  suggestion instead of picking it.
- Entry activation launches the stripped line, not the raw text.
- In the suggestion strip, a key with no character still moves the focus to
  the entry and is reported as handled. Its text is `""`.
- Backspace reaches `append_char` as the character U+0008. It deletes the last
  character, and on an empty entry it leaves the entry empty.

## Model

| member | source | states |
|---|---|---|
| Matcher.SubseqMatch | src/__main__.py:46-55 | the result is true iff the query is non-empty and its characters occur in the candidate at strictly increasing indices; the empty query is rejected for every candidate, the empty one included |
| Matcher.Find | src/__main__.py:52 | `full.find(c, start)`: -1 iff `c` does not occur at or after `start`; otherwise the lowest such index |
| Matcher.MatchNoLongerThanCandidate | src/__main__.py:46-55 | a matching query is never longer than the candidate, so nothing matches the empty candidate |
| Matcher.EmbedsAtLeastIndex | src/__main__.py:50-54 | the k-th matched position of a strictly increasing placement is at least k |
| Matcher.ExtendedQueryNarrows | src/__main__.py:46-55 | a candidate matched by a non-empty query followed by one more character is matched by the query alone |
| CommandIndex.GetPathCommands | src/__main__.py:24-33 | the index holds exactly the names of the executable regular files in the directory components of the search path, strictly ascending by (length, name) |
| CommandIndex.Insert | src/__main__.py:33 | inserting a name into the ordered list adds exactly that name to its elements |
| CommandIndex.InsertAscending | src/__main__.py:33 | inserting into a strictly ascending list keeps it strictly ascending |
| CommandIndex.LexLessIrreflexive | src/__main__.py:33 | Python's string `<` never holds between a string and itself |
| CommandIndex.LexLessTransitive | src/__main__.py:33 | Python's string `<` is transitive |
| CommandIndex.LexLessTotal | src/__main__.py:33 | of two different strings, one is `<` the other |
| CommandIndex.KeyLessIrreflexive | src/__main__.py:33 | no name's key `(len(c), c)` is below itself |
| CommandIndex.KeyLessTransitive | src/__main__.py:33 | the key order is transitive |
| CommandIndex.KeyLessTotal | src/__main__.py:33 | of two different names, one key is below the other, so the order is total |
| CommandIndex.AscendingHasNoDuplicates | src/__main__.py:26-33 | no name occurs twice in the index |
| CommandIndex.ShorterNameFirst | src/__main__.py:33 | a shorter name always comes before a longer one |
| CommandIndex.AscendingIsUnique | src/__main__.py:26-33 | two ascending lists with the same names are equal: the index depends only on the set of names, not on the scan order |
| CommandIndex.LsCatLsblkIndex | src/__main__.py:24-33 | executables `ls`, `lsblk`, `cat` are indexed as `["ls", "cat", "lsblk"]` |
| SuggestionEngine.MatchingCommands | src/__main__.py:220 | the match list is no longer than the index, and every element is a command of the index that the text matches |
| SuggestionEngine.Suggestions | src/__main__.py:228 | at most 20 suggestions, a prefix of the match list, all of it when it has fewer than 20 |
| SuggestionEngine.MatchCommands | src/__main__.py:220 | the comprehension's loop, calling the matcher per command, yields exactly the match list |
| SuggestionEngine.MatchingCommandsComplete | src/__main__.py:220 | every command of the index that the text matches is in the match list |
| SuggestionEngine.MatchingCommandsInIndexOrder | src/__main__.py:220 | the match list is an order-preserving subsequence of the index (no re-ranking) |
| SuggestionEngine.MatchingCommandsAscending | src/__main__.py:220 | on an ascending index the match list is ascending by (length, name) |
| SuggestionEngine.MatchingCommandsUnique | src/__main__.py:220 | any ascending list holding exactly the matching commands is the match list |
| SuggestionEngine.EmptyQueryMatchesNothing | src/__main__.py:48-49 | with empty text nothing matches, so no suggestion is shown |
| SuggestionEngine.ExtendedQueryKeepsFewer | src/__main__.py:207-220 | typing one more character after a non-empty text never adds a command to the match list |
| SuggestionEngine.SuggestionsEmptyIff | src/__main__.py:220-228 | the shown suggestions are empty exactly when the match list is empty |
| SuggestionEngine.SuggestionsSound | src/__main__.py:220-228 | every shown suggestion is a command of the index matched by the text, and they are ascending by (length, name) |
| Matcher.SubsequenceHead | src/__main__.py:46-55 | the first character of a subsequence occurs in the candidate, so a query whose first character is absent matches nothing |
| SuggestionEngine.LsMatches | src/__main__.py:46-55 | "ls" matches "ls" and "lsblk" and does not match "cat" |
| SuggestionEngine.LsExample | src/__main__.py:220 | the text "ls" over `["ls", "cat", "lsblk"]` matches `["ls", "lsblk"]` |
| InputRouter.TrimStart | src/__main__.py:350 | removes exactly the leading whitespace (Python `isspace`) |
| InputRouter.TrimEnd | src/__main__.py:350 | removes exactly the trailing whitespace |
| InputRouter.Strip | src/__main__.py:350 | `str.strip()`: the result neither starts nor ends with whitespace |
| InputRouter.StripIsWhitespaceTrimmedSlice | src/__main__.py:350 | the stripped line is the slice `s[i..j]` of the text, for returned cut positions `i <= j`, and only whitespace lies before `i` and from `j` on |
| InputRouter.StripBlankIff | src/__main__.py:350-352 | the stripped line is empty iff the text is all whitespace |
| InputRouter.StripIdempotent | src/__main__.py:350 | stripping twice equals stripping once |
| InputRouter.DropLast | src/__main__.py:192 | `text[:-1]` is a prefix one shorter than the text, or empty for empty text |
| InputRouter.Edited | src/__main__.py:189-192 | appending a character that is not backspace puts it after the text; backspace drops the last character |
| InputRouter.BackspaceUndoesAppend | src/__main__.py:189-192 | backspace after typing a character restores the text; backspace on an empty entry leaves it empty |
| InputRouter.KeyText | src/__main__.py:289-290 | a key yields its own character, or nothing exactly when it has no code point |
| InputRouter.StripPadded | src/__main__.py:350 | a line that neither starts nor ends with whitespace, padded by one blank either side, strips back to the line |
| InputRouter.Launcher.constructor | src/__main__.py:61-63 | the index is built from the search path; the entry is empty, focused and expanded; the strip is hidden; nothing launched |
| InputRouter.Launcher.ShowSuggestions | src/__main__.py:241-243 | strip visible, entry not expanded |
| InputRouter.Launcher.HideSuggestions | src/__main__.py:245-247 | strip hidden, entry expanded |
| InputRouter.Launcher.RefreshSuggestions | src/__main__.py:212-239 | shown suggestions become the first 20 matches of the text; strip visible iff something matches; `hexpand` is its negation; a focused button is destroyed |
| InputRouter.Launcher.SetText | src/__main__.py:207-210 | setting the text refreshes the suggestions for it (the invariant holds for the new text) |
| InputRouter.Launcher.AppendChar | src/__main__.py:189-192 | the text becomes `Edited(text, ch)` and the suggestions follow it |
| InputRouter.Launcher.FocusEntry | src/__main__.py:194-197 | the entry gets the focus |
| InputRouter.Launcher.SetCmd | src/__main__.py:199-201 | the text becomes the quoted command |
| InputRouter.Launcher.ExecOne | src/__main__.py:344-346 | exactly one single-token launch of the quoted command is added to the log |
| InputRouter.Launcher.Quit | src/__main__.py:317 | quitting is requested |
| InputRouter.Launcher.OnKeyPressed | src/__main__.py:253-264 | handled iff the key is Escape, and then quitting is requested |
| InputRouter.Launcher.OnScrollerKeyPressed | src/__main__.py:266-293 | exempt keys are not handled and change nothing; any other key appends its possibly empty text, focuses the entry and is handled |
| InputRouter.Launcher.OnBtnKeyPressed | src/__main__.py:295-320 | Space appends " " and focuses the entry; Return with modifier state equal to Control puts the quoted label in the entry, focuses it and launches nothing; Return with any other state logs one launch of the quoted label and quits; other keys are not handled and change nothing |
| InputRouter.Launcher.OnBtnClicked | src/__main__.py:322-338 | a click with state equal to Control picks the quoted command into the entry; any other state launches it once and quits |
| InputRouter.Launcher.OnActivateEntry | src/__main__.py:348-354 | blank text does nothing; otherwise one shell-line launch of the stripped text is logged and quitting is requested |
| InputRouter.Launcher.KeyOnSuggestion | src/__main__.py:166-179 | a key on a focused suggestion goes to the button's, the strip's, then the root's handler, with these outcomes: Escape quits and leaves text and focus; Space types a blank into the entry and focuses it; Return with exactly Control picks the quoted command into the entry; Return with any other modifier state launches it and quits, leaving text and focus; an ordinary key is typed into the entry, which gets the focus; the other focus-traversal and modifier keys change nothing |

## Left out

- Window creation, CSS loading and layer-shell placement (src/__main__.py:72-183) are toolkit setup with no logic.
- `get_config_path` is an environment lookup only.
- The filesystem side of `get_path_commands` is not modelled: reading `PATH`, `is_dir`, `iterdir`, `is_file` and `os.access`. The model takes their outcome as `SearchDir` values. How an empty `PATH` component is resolved (Python turns it into `.`) is left to whoever supplies those values.
- An unreadable directory on the search path is not modelled. `iterdir` (src/__main__.py:30) then raises `PermissionError`, nothing catches it, and start-up fails. `SearchDir` has no value for that outcome, so the model does not show that such directories are skipped; they are not.
- Command names are sequences of Unicode scalar values. A file name whose bytes are not valid UTF-8 reaches Python as a string with lone surrogates (U+DC80 to U+DCFF), which no `DirEntry.name` can hold.
- `sorted` is a library routine. The model orders the set by inserting each name into an ascending list. Its contract is "strictly ascending, same names", and by `AscendingIsUnique` that determines the list.
- `subprocess.Popen` is a fire-and-forget foreign call. Each call is a `Launch` record appended to the log. Spawn failures and the child process are not modelled.
- `shlex.quote` and `Gdk.keyval_to_unicode` are library routines. They are constant function fields of the launcher, `quote` and `keyvalToUnicode`, and nothing is assumed about them. A codepoint of 0 is represented by the NUL character.
- GTK's own focus traversal on Tab is not modelled. `FocusSuggestion` stands for its outcome (a suggestion gains the focus), not for its order.
- `set_position(-1)` in `focus_entry` is not modelled. It moves the cursor to the end of the entry and does not affect the text.
- The loop that removes the old buttons, and the creation of buttons with their controllers, are not modelled. The suggestion sequence is replaced instead.
- `SetText` always refreshes. The toolkit may emit no "changed" signal when the text is unchanged, but the refreshed state is then the same apart from focus, and every handler that sets text refocuses the entry right after.
- `quit()` only sets `quitRequested`. The event loop, `main` and `app.run` are not modelled, so nothing stops further events after a quit.
- Key values and modifier states are unbounded integers, compared only for equality as in the source.
