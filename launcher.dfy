/** The launcher window's input routing: an entry, a strip of suggestion
    buttons, and the key and click handlers that decide between editing the
    entry and launching a command. */
module InputRouter {
  import opened CommandIndex
  import opened SuggestionEngine

  // GDK key values (X11 keysyms) that the handlers compare against.
  const KeyTab: int := 0xff09
  const KeyKPTab: int := 0xff89
  const KeyISOLeftTab: int := 0xfe20
  const KeyEscape: int := 0xff1b
  const KeyReturn: int := 0xff0d
  const KeyShiftL: int := 0xffe1
  const KeyShiftR: int := 0xffe2
  const KeyControlL: int := 0xffe3
  const KeyControlR: int := 0xffe4
  const KeySpace: int := 0x20

  // GDK modifier bits: a modifier state is a bit mask of these.
  const ShiftMask: nat := 1
  const LockMask: nat := 2
  const ControlMask: nat := 4

  /** Keys the suggestion strip leaves to the toolkit (focus traversal,
      activation, quitting, bare modifiers). */
  const ScrollerExempt: set<int> :=
    {KeyTab, KeyKPTab, KeyISOLeftTab, KeyEscape, KeyReturn, KeyShiftL, KeyShiftR, KeyControlL, KeyControlR}

  /** The character that `append_char` treats as "delete the last character". */
  const Backspace: string := "\U{8}"

  /** Which widget owns keyboard input. `Unfocused` is the moment after a
      refresh has destroyed the focused suggestion button. */
  datatype Focus = OnEntry | OnSuggestion(index: nat) | Unfocused

  /** A detached process start, both through the shell: a line typed into
      the entry, or a command name already quoted as a single token. */
  datatype Launch = RunLine(line: string) | RunCommand(token: string)

  /** Python's `str.isspace` for one character. */
  predicate IsSpace(c: char) {
    || ('\t' <= c <= '\r')
    || ('\U{1C}' <= c <= ' ')
    || c == '\U{85}' || c == '\U{A0}' || c == '\U{1680}'
    || ('\U{2000}' <= c <= '\U{200A}')
    || c == '\U{2028}' || c == '\U{2029}' || c == '\U{202F}' || c == '\U{205F}' || c == '\U{3000}'
  }

  /** Drops the leading whitespace. */
  function TrimStart(s: string): (r: string)
    ensures |r| <= |s| && r == s[|s| - |r|..]
    ensures r == [] || !IsSpace(r[0])
    ensures forall i :: 0 <= i < |s| - |r| ==> IsSpace(s[i])
  {
    if s != [] && IsSpace(s[0]) then TrimStart(s[1..]) else s
  }

  /** Drops the trailing whitespace. */
  function TrimEnd(s: string): (r: string)
    ensures |r| <= |s| && r == s[..|r|]
    ensures r == [] || !IsSpace(r[|r| - 1])
    ensures forall i :: |r| <= i < |s| ==> IsSpace(s[i])
  {
    if s != [] && IsSpace(s[|s| - 1]) then TrimEnd(s[..|s| - 1]) else s
  }

  /** `str.strip()`: the text without leading or trailing whitespace. */
  function Strip(s: string): (r: string)
    ensures r == [] || (!IsSpace(r[0]) && !IsSpace(r[|r| - 1]))
  {
    TrimEnd(TrimStart(s))
  }

  /** The stripped text is a slice of the text with only whitespace cut off
      either side. */
  lemma StripIsWhitespaceTrimmedSlice(s: string) returns (i: nat, j: nat)
    ensures i <= j <= |s| && Strip(s) == s[i..j]
    ensures forall k :: 0 <= k < i ==> IsSpace(s[k])
    ensures forall k :: j <= k < |s| ==> IsSpace(s[k])
  {
    var t := TrimStart(s);
    i := |s| - |t|;
    var r := TrimEnd(t);
    j := i + |r|;
    SpacesAfterSlice(s, i, |r|);
  }

  /** Cutting `m` characters off after position `i` and finding only blanks
      behind them in the suffix means only blanks follow `i + m` in `s`. */
  lemma SpacesAfterSlice(s: string, i: nat, m: nat)
    requires i + m <= |s|
    requires forall k :: m <= k < |s[i..]| ==> IsSpace(s[i..][k])
    ensures s[i..][..m] == s[i..i + m]
    ensures forall k :: i + m <= k < |s| ==> IsSpace(s[k])
  {
    forall k | i + m <= k < |s| ensures IsSpace(s[k]) {
      assert s[k] == s[i..][k - i];
    }
  }

  /** Only a line of whitespace strips to nothing. */
  lemma StripBlankIff(s: string)
    ensures Strip(s) == [] <==> forall k :: 0 <= k < |s| ==> IsSpace(s[k])
  {
    var t := TrimStart(s);
    if t != [] {
      assert s[|s| - |t|] == t[0];
    }
  }

  /** Stripping twice changes nothing more. */
  lemma StripIdempotent(s: string)
    ensures Strip(Strip(s)) == Strip(s)
  {
  }

  /** `text[:-1]`: the text without its last character, if it has one. */
  function DropLast(s: string): (r: string)
    ensures r <= s
    ensures |r| == if s == [] then 0 else |s| - 1
  {
    if s == [] then [] else s[..|s| - 1]
  }

  /** The entry text after `append_char(ch)`. */
  function Edited(text: string, ch: string): (r: string)
    ensures ch != Backspace ==> |r| == |text| + |ch| && r[..|text|] == text && r[|text|..] == ch
    ensures ch == Backspace ==> r <= text && |r| == if text == [] then 0 else |text| - 1
  {
    if ch != Backspace then text + ch else DropLast(text)
  }

  /** Backspace undoes the character typed just before it, and leaves an
      empty entry empty. */
  lemma BackspaceUndoesAppend(text: string, c: char)
    requires [c] != Backspace
    ensures Edited(Edited(text, [c]), Backspace) == text
    ensures Edited([], Backspace) == []
  {
    assert (text + [c])[..|text|] == text;
  }

  /** `chr(codepoint) if codepoint else ""`, with the NUL character standing
      for the zero that `keyval_to_unicode` returns for keys without one. */
  function KeyText(c: char): (r: string)
    ensures r == [] || r == [c]
    ensures r == [] <==> c == '\0'
  {
    if c == '\0' then "" else [c]
  }

  /** What a refresh does to the focus: a focused suggestion button is
      destroyed with the others, any other focus stays. */
  function AfterRebuild(f: Focus): Focus {
    if f.OnSuggestion? then Unfocused else f
  }

  class Launcher {
    /** The command index, built once at start-up. */
    const commands: seq<string>
    /** `shlex.quote`, a library routine taken as given. */
    const quote: string -> string
    /** `Gdk.keyval_to_unicode`, taken as given. */
    const keyvalToUnicode: int -> char

    var text: string
    var focus: Focus
    var suggestions: seq<string>
    var scrollerVisible: bool
    var entryHexpand: bool
    var quitRequested: bool
    var launches: seq<Launch>

    /** The shown suggestions are always those of the current text, the
        strip is visible exactly when something matches, and the entry
        claims the horizontal space exactly when the strip does not. */
    ghost predicate Valid()
      reads this
    {
      && StrictlyAscending(commands)
      && suggestions == Suggestions(text, commands)
      && scrollerVisible == (MatchingCommands(text, commands) != [])
      && entryHexpand == !scrollerVisible
      && (focus.OnSuggestion? ==> focus.index < |suggestions|)
    }

    /** `Launcher.__init__` and `build_ui`: the index is built from the
        search path, the entry is empty and expanded, the strip hidden. */
    constructor (path: seq<SearchDir>, quote: string -> string, keyvalToUnicode: int -> char)
      ensures Valid()
      ensures Elements(commands) == PathNames(path)
      ensures this.quote == quote && this.keyvalToUnicode == keyvalToUnicode
      ensures text == "" && focus == OnEntry && suggestions == []
      ensures !scrollerVisible && entryHexpand
      ensures !quitRequested && launches == []
    {
      var cs := GetPathCommands(path);
      EmptyQueryMatchesNothing(cs);
      commands := cs;
      this.quote := quote;
      this.keyvalToUnicode := keyvalToUnicode;
      text := "";
      focus := OnEntry;
      suggestions := [];
      scrollerVisible := false;
      entryHexpand := true;
      quitRequested := false;
      launches := [];
    }

    method ShowSuggestions()
      modifies this`scrollerVisible, this`entryHexpand
      ensures scrollerVisible && !entryHexpand
    {
      scrollerVisible := true;
      entryHexpand := false;
    }

    method HideSuggestions()
      modifies this`scrollerVisible, this`entryHexpand
      ensures !scrollerVisible && entryHexpand
    {
      scrollerVisible := false;
      entryHexpand := true;
    }

    /** `refresh_suggestions(t)`: all buttons are removed, the commands are
        filtered by the matcher, the strip is hidden when none match and
        otherwise shown with the first twenty. */
    method RefreshSuggestions(t: string)
      requires StrictlyAscending(commands)
      modifies this`suggestions, this`scrollerVisible, this`entryHexpand, this`focus
      ensures suggestions == Suggestions(t, commands)
      ensures scrollerVisible == (MatchingCommands(t, commands) != [])
      ensures entryHexpand == !scrollerVisible
      ensures focus == AfterRebuild(old(focus))
    {
      suggestions := [];
      focus := AfterRebuild(focus);
      var matches := MatchCommands(t, commands);
      if matches == [] {
        HideSuggestions();
        return;
      }
      ShowSuggestions();
      suggestions := if |matches| <= MaxSuggestions then matches else matches[..MaxSuggestions];
    }

    /** `entry.set_text(t)`, whose "changed" signal runs `on_entry_changed`
        and so refreshes the suggestions for the new text. */
    method SetText(t: string)
      requires Valid()
      modifies this`text, this`suggestions, this`scrollerVisible, this`entryHexpand, this`focus
      ensures Valid()
      ensures text == t && focus == AfterRebuild(old(focus))
    {
      text := t;
      RefreshSuggestions(text);
    }

    /** `append_char(ch)`: appends `ch`, or deletes the last character when
        `ch` is a backspace. */
    method AppendChar(ch: string)
      requires Valid()
      modifies this`text, this`suggestions, this`scrollerVisible, this`entryHexpand, this`focus
      ensures Valid()
      ensures text == Edited(old(text), ch) && focus == AfterRebuild(old(focus))
    {
      SetText(if ch != Backspace then text + ch else DropLast(text));
    }

    /** `focus_entry()`. */
    method FocusEntry()
      modifies this`focus
      ensures focus == OnEntry
    {
      focus := OnEntry;
    }

    /** `set_cmd(cmd)`: the entry holds the quoted command. */
    method SetCmd(cmd: string)
      requires Valid()
      modifies this`text, this`suggestions, this`scrollerVisible, this`entryHexpand, this`focus
      ensures Valid()
      ensures text == quote(cmd) && focus == AfterRebuild(old(focus))
    {
      SetText(quote(cmd));
    }

    /** `exec_one(cmd)`: one detached start of the quoted command name. */
    method ExecOne(cmd: string)
      modifies this`launches
      ensures launches == old(launches) + [RunCommand(quote(cmd))]
    {
      launches := launches + [RunCommand(quote(cmd))];
    }

    /** The application's `quit()`. */
    method Quit()
      modifies this`quitRequested
      ensures quitRequested
    {
      quitRequested := true;
    }

    /** `on_key_pressed`, the handler on the whole input area: Escape quits,
        every other key is passed on. */
    method OnKeyPressed(keyval: int, state: nat) returns (handled: bool)
      modifies this`quitRequested
      ensures handled <==> keyval == KeyEscape
      ensures quitRequested == (old(quitRequested) || keyval == KeyEscape)
    {
      if keyval == KeyEscape {
        Quit();
        return true;
      }
      return false;
    }

    /** `on_scroller_key_pressed`: the exempt keys are passed on untouched;
        any other key types its character (possibly none) into the entry
        and gives the entry the focus. */
    method OnScrollerKeyPressed(keyval: int, state: nat) returns (handled: bool)
      requires Valid()
      modifies this`text, this`suggestions, this`scrollerVisible, this`entryHexpand, this`focus
      ensures Valid()
      ensures handled <==> keyval !in ScrollerExempt
      ensures !handled ==> unchanged(this)
      ensures handled ==> text == Edited(old(text), KeyText(keyvalToUnicode(keyval))) && focus == OnEntry
    {
      if keyval in ScrollerExempt {
        return false;
      }
      var ch := KeyText(keyvalToUnicode(keyval));
      AppendChar(ch);
      FocusEntry();
      return true;
    }

    /** `on_btn_key_pressed` on the focused suggestion button: Space types a
        space into the entry; Return with exactly the Control modifier puts
        the quoted command into the entry; Return with any other modifier
        state launches it and quits; other keys are passed on. */
    method OnBtnKeyPressed(keyval: int, state: nat) returns (handled: bool)
      requires Valid() && focus.OnSuggestion?
      modifies this`text, this`suggestions, this`scrollerVisible, this`entryHexpand, this`focus
      modifies this`launches, this`quitRequested
      ensures Valid()
      ensures handled <==> keyval == KeySpace || keyval == KeyReturn
      ensures !handled ==> unchanged(this)
      ensures keyval == KeySpace ==>
        && text == old(text) + " " && focus == OnEntry
        && launches == old(launches) && quitRequested == old(quitRequested)
      ensures keyval == KeyReturn && state == ControlMask ==>
        && text == quote(old(suggestions)[old(focus).index]) && focus == OnEntry
        && launches == old(launches) && quitRequested == old(quitRequested)
      ensures keyval == KeyReturn && state != ControlMask ==>
        && launches == old(launches) + [RunCommand(quote(old(suggestions)[old(focus).index]))]
        && quitRequested && text == old(text) && focus == old(focus)
    {
      if keyval == KeySpace {
        AppendChar(" ");
        FocusEntry();
        return true;
      }
      if keyval == KeyReturn {
        var cmd := suggestions[focus.index];
        if state == ControlMask {
          SetCmd(cmd);
          FocusEntry();
          return true;
        }
        ExecOne(cmd);
        Quit();
        return true;
      }
      return false;
    }

    /** `on_btn_clicked` on suggestion `i`: with exactly the Control
        modifier the quoted command goes into the entry, otherwise it is
        launched and the launcher quits. */
    method OnBtnClicked(i: nat, state: nat)
      requires Valid() && i < |suggestions|
      modifies this`text, this`suggestions, this`scrollerVisible, this`entryHexpand, this`focus
      modifies this`launches, this`quitRequested
      ensures Valid()
      ensures state == ControlMask ==>
        && text == quote(old(suggestions)[i]) && focus == OnEntry
        && launches == old(launches) && quitRequested == old(quitRequested)
      ensures state != ControlMask ==>
        && launches == old(launches) + [RunCommand(quote(old(suggestions)[i]))]
        && quitRequested && text == old(text) && focus == old(focus)
    {
      var cmd := suggestions[i];
      if state == ControlMask {
        SetCmd(cmd);
        FocusEntry();
        return;
      }
      ExecOne(cmd);
      Quit();
    }

    /** `on_activate_entry`: Return in the entry runs the stripped line
        through the shell and quits, unless the line is blank. */
    method OnActivateEntry()
      modifies this`launches, this`quitRequested
      ensures Strip(text) == [] ==> launches == old(launches) && quitRequested == old(quitRequested)
      ensures Strip(text) != [] ==> launches == old(launches) + [RunLine(Strip(text))] && quitRequested
    {
      var cmdline := Strip(text);
      if cmdline == [] {
        return;
      }
      launches := launches + [RunLine(cmdline)];
      Quit();
    }

    /** The toolkit's focus traversal (Tab and its variants, which the
        handlers leave alone) landing on suggestion `i`. */
    method FocusSuggestion(i: nat)
      requires Valid() && i < |suggestions|
      modifies this`focus
      ensures Valid() && focus == OnSuggestion(i)
    {
      focus := OnSuggestion(i);
    }

    /** A key pressed while suggestion button is focused reaches the three
        key handlers innermost first: the button's, the strip's, then the
        whole input area's; the first that handles it stops it. */
    method KeyOnSuggestion(keyval: int, state: nat) returns (handled: bool)
      requires Valid() && focus.OnSuggestion?
      modifies this`text, this`suggestions, this`scrollerVisible, this`entryHexpand, this`focus
      modifies this`launches, this`quitRequested
      ensures Valid()
      ensures keyval == KeyEscape ==>
        && handled && quitRequested && launches == old(launches)
        && text == old(text) && focus == old(focus)
      ensures keyval == KeySpace ==>
        && handled && text == old(text) + " " && focus == OnEntry
        && launches == old(launches) && quitRequested == old(quitRequested)
      ensures keyval == KeyReturn && state == ControlMask ==>
        && handled && text == quote(old(suggestions)[old(focus).index]) && focus == OnEntry
        && launches == old(launches) && quitRequested == old(quitRequested)
      ensures keyval == KeyReturn && state != ControlMask ==>
        && handled && launches == old(launches) + [RunCommand(quote(old(suggestions)[old(focus).index]))]
        && quitRequested && text == old(text) && focus == old(focus)
      ensures keyval !in ScrollerExempt && keyval != KeySpace ==>
        && handled && text == Edited(old(text), KeyText(keyvalToUnicode(keyval))) && focus == OnEntry
        && launches == old(launches) && quitRequested == old(quitRequested)
      ensures keyval in ScrollerExempt - {KeyEscape, KeyReturn} ==> !handled && unchanged(this)
    {
      handled := OnBtnKeyPressed(keyval, state);
      if handled {
        return;
      }
      handled := OnScrollerKeyPressed(keyval, state);
      if handled {
        return;
      }
      handled := OnKeyPressed(keyval, state);
    }
  }

  /** A search path holding `ls`, `lsblk` and `cat`, a missing directory,
      a non-executable file and a name listed twice. */
  function LsPath(): seq<SearchDir> {
    [ Directory([DirEntry("ls", true, true), DirEntry("lsblk", true, true)]),
      NotADirectory,
      Directory([DirEntry("cat", true, true), DirEntry("README", true, false), DirEntry("ls", true, true)]) ]
  }

  lemma LsPathNames()
    ensures PathNames(LsPath()) == {"ls", "lsblk", "cat"}
  {
    var path := LsPath();
    assert PathNames(path[..1]) == {"ls", "lsblk"};
    assert PathNames(path[..2]) == {"ls", "lsblk"} by { assert path[..2][..1] == path[..1]; }
    assert path[..3][..2] == path[..2];
    assert ListingNames(path[2].entries) == {"cat", "ls"};
  }

  /** A launcher over `LsPath` whose query is "ls", showing "ls" and
      "lsblk". */
  method LsLauncher(quote: string -> string, keyvalToUnicode: int -> char) returns (l: Launcher)
    ensures fresh(l) && l.Valid() && l.quote == quote && l.keyvalToUnicode == keyvalToUnicode
    ensures l.commands == ["ls", "cat", "lsblk"] && l.text == "ls" && l.focus == OnEntry
    ensures l.suggestions == ["ls", "lsblk"] && l.scrollerVisible && !l.entryHexpand
    ensures l.launches == [] && !l.quitRequested
  {
    l := new Launcher(LsPath(), quote, keyvalToUnicode);
    LsPathNames();
    LsCatLsblkIndex(l.commands);
    LsExample();
    l.SetText("ls");
  }

  /** Control+Return on the focused "lsblk" picks it, quoted, into the
      entry and launches nothing. */
  method PickWithControlReturn(quote: string -> string, keyvalToUnicode: int -> char)
  {
    var l := LsLauncher(quote, keyvalToUnicode);
    l.FocusSuggestion(1);
    var handled := l.KeyOnSuggestion(KeyReturn, ControlMask);
    assert handled && l.text == quote("lsblk") && l.focus == OnEntry;
    assert l.launches == [] && !l.quitRequested;
  }

  /** Return on the focused "lsblk" launches it as one quoted token and
      quits. */
  method RunWithReturn(quote: string -> string, keyvalToUnicode: int -> char)
  {
    var l := LsLauncher(quote, keyvalToUnicode);
    l.FocusSuggestion(1);
    var handled := l.KeyOnSuggestion(KeyReturn, 0);
    assert handled && l.launches == [RunCommand(quote("lsblk"))] && l.quitRequested;
  }

  /** Control+Return with Caps Lock on is not Control alone: it launches. */
  method RunWithControlAndCapsLock(quote: string -> string, keyvalToUnicode: int -> char)
  {
    var l := LsLauncher(quote, keyvalToUnicode);
    l.FocusSuggestion(1);
    var handled := l.KeyOnSuggestion(KeyReturn, ControlMask + LockMask);
    assert handled && l.launches == [RunCommand(quote("lsblk"))] && l.quitRequested;
  }

  /** A click with Control and Shift held launches too. */
  method RunWithControlShiftClick(quote: string -> string, keyvalToUnicode: int -> char)
  {
    var l := LsLauncher(quote, keyvalToUnicode);
    l.OnBtnClicked(1, ControlMask + ShiftMask);
    assert l.launches == [RunCommand(quote("lsblk"))] && l.quitRequested;
  }

  /** Typing "x" while "lsblk" is focused continues the query in the
      entry. */
  method TypeWhileBrowsing(quote: string -> string)
  {
    var typeX := (k: int) => if k == 0x78 then 'x' else '\0';
    var l := LsLauncher(quote, typeX);
    l.FocusSuggestion(1);
    var handled := l.KeyOnSuggestion(0x78, 0);
    assert handled && l.text == "lsx" && l.focus == OnEntry && l.launches == [];
  }

  /** Escape while a suggestion is focused quits, whatever the modifiers. */
  method EscapeWhileBrowsing(quote: string -> string, keyvalToUnicode: int -> char)
  {
    var l := LsLauncher(quote, keyvalToUnicode);
    l.FocusSuggestion(0);
    var handled := l.KeyOnSuggestion(KeyEscape, ControlMask);
    assert handled && l.quitRequested && l.launches == [];
  }

  /** A line with one blank either side strips to the line. */
  lemma StripPadded(line: string)
    requires line != [] && !IsSpace(line[0]) && !IsSpace(line[|line| - 1])
    ensures Strip(" " + line + " ") == line
  {
    assert (" " + line + " ")[1..] == line + " ";
    assert (line + " ")[..|line|] == line;
  }

  /** A launcher over an empty search path whose entry holds `t`. */
  method EntryWithText(quote: string -> string, keyvalToUnicode: int -> char, t: string) returns (l: Launcher)
    ensures fresh(l) && l.Valid() && l.commands == [] && l.text == t
    ensures l.launches == [] && !l.quitRequested
  {
    l := new Launcher([], quote, keyvalToUnicode);
    ElementsEmpty(l.commands);
    l.SetText(t);
  }

  /** Return in an entry holding only blanks launches nothing. */
  method ActivateBlankEntry(quote: string -> string, keyvalToUnicode: int -> char, blank: string)
    requires forall k :: 0 <= k < |blank| ==> IsSpace(blank[k])
  {
    var l := EntryWithText(quote, keyvalToUnicode, blank);
    StripBlankIff(blank);
    l.OnActivateEntry();
    assert l.launches == [] && !l.quitRequested;
  }

  /** Return in the entry runs the line, with the blanks around it stripped,
      through the shell, and quits. */
  method ActivateEntry(quote: string -> string, keyvalToUnicode: int -> char, line: string)
    requires line != [] && !IsSpace(line[0]) && !IsSpace(line[|line| - 1])
  {
    var l := EntryWithText(quote, keyvalToUnicode, " " + line + " ");
    StripPadded(line);
    l.OnActivateEntry();
    assert l.launches == [RunLine(line)] && l.quitRequested;
  }
}
