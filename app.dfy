/** `interactive_mode`, the command-line page browser: a loop that shows
    the current page (or the space's page list when there is none) and
    moves to another page according to each typed command. The page
    loader and the page list are oracles; the typed lines are a sequence. */
module Browser {
  import opened Common
  import opened Text

  /** What the loader gives for a page: the ids of its ancestors, root
      first, and the ids of its child pages in listed order. */
  datatype Page = Page(ancestors: seq<string>, children: seq<string>)

  /** `show_page`: the page, or `None` when it could not be loaded. */
  type Loader = string -> Option<Page>

  /** The effect of one command: leave the loop, or go to a page id
      (`None` is the space's page list). */
  datatype Move = Exit | Goto(id: Option<string>)

  /** The line as the loop reads it: stripped and lower-cased. */
  function Command(line: string): string {
    Lower(Strip(line))
  }

  /** `if current_page_id:` — an empty id counts as no page. */
  predicate HasPage(id: Option<string>) {
    id.Some? && id.value != ""
  }

  /** The entry a typed number selects, counting from 1. */
  function Pick(ids: seq<string>, cmd: string): Option<string>
    requires IsDigits(cmd)
  {
    var n := DigitsValue(cmd);
    if 1 <= n <= |ids| then Some(ids[n - 1]) else None
  }

  /** A command typed below a page. */
  function PageCommand(p: Page, current: string, cmd: string): (m: Move)
    ensures m == Exit <==> cmd == "exit"
    ensures cmd == "home" ==> m == Goto(None)
    ensures cmd == "back" ==> m == Goto(if p.ancestors == [] then None else Some(p.ancestors[|p.ancestors| - 1]))
    ensures IsDigits(cmd) ==>
      m == Goto(Some(if 1 <= DigitsValue(cmd) <= |p.children| then p.children[DigitsValue(cmd) - 1] else current))
    ensures m.Goto? && m.id.Some? ==>
      m.id.value in p.ancestors || m.id.value in p.children || m.id.value == current || m.id.value == cmd
  {
    if cmd == "exit" then Exit
    else if cmd == "back" then
      if p.ancestors != [] then Goto(Some(p.ancestors[|p.ancestors| - 1])) else Goto(None)
    else if cmd == "home" then Goto(None)
    else if IsDigits(cmd) then
      match Pick(p.children, cmd)
      case Some(child) => Goto(Some(child))
      case None => Goto(Some(current))
    else Goto(Some(cmd))
  }

  /** A command typed below the space's page list; there `back` and `home`
      are taken as page ids like any other text. */
  function HomeCommand(pages: seq<string>, current: Option<string>, cmd: string): (m: Move)
    ensures m == Exit <==> cmd == "exit"
    ensures IsDigits(cmd) ==>
      m == Goto(if 1 <= DigitsValue(cmd) <= |pages| then Some(pages[DigitsValue(cmd) - 1]) else current)
    ensures cmd != "exit" && !IsDigits(cmd) ==> m == Goto(Some(cmd))
  {
    if cmd == "exit" then Exit
    else if IsDigits(cmd) then
      match Pick(pages, cmd)
      case Some(id) => Goto(Some(id))
      case None => Goto(current)
    else Goto(Some(cmd))
  }

  /** How a session ends: whether `exit` was typed (otherwise the input
      ran out), the ids handed to `show_page` in order, and the id current
      at the end. */
  datatype Session = Session(exited: bool, shown: seq<string>, current: Option<string>)

  /** The loop from the state (`current`, next line `i`, pages shown so far). */
  function Browse(current: Option<string>, lines: seq<string>, i: nat, shown: seq<string>,
                  load: Loader, pages: seq<string>): Session
    requires i <= |lines|
    decreases 2 * (|lines| - i) + (if HasPage(current) then 1 else 0)
  {
    if HasPage(current) then
      match load(current.value)
      case None => Browse(None, lines, i, shown + [current.value], load, pages)
      case Some(p) =>
        if i == |lines| then Session(false, shown + [current.value], current)
        else match PageCommand(p, current.value, Command(lines[i]))
          case Exit => Session(true, shown + [current.value], current)
          case Goto(next) => Browse(next, lines, i + 1, shown + [current.value], load, pages)
    else if i == |lines| then Session(false, shown, current)
    else match HomeCommand(pages, current, Command(lines[i]))
      case Exit => Session(true, shown, current)
      case Goto(next) => Browse(next, lines, i + 1, shown, load, pages)
  }

  /** A page that fails to load sends the loop back to the page list
      without reading a line. */
  lemma FailedLoadGoesHome(current: Option<string>, lines: seq<string>, i: nat, shown: seq<string>,
                           load: Loader, pages: seq<string>)
    requires i <= |lines| && HasPage(current) && load(current.value).None?
    ensures Browse(current, lines, i, shown, load, pages) == Browse(None, lines, i, shown + [current.value], load, pages)
  {
  }

  /** The move a command makes from the current id, the page there being
      loaded when there is one. */
  function Step(current: Option<string>, cmd: string, load: Loader, pages: seq<string>): Move
    requires HasPage(current) ==> load(current.value).Some?
  {
    if HasPage(current) then PageCommand(load(current.value).value, current.value, cmd)
    else HomeCommand(pages, current, cmd)
  }

  /** With a line left and the current page loaded (or none), the loop
      reads one command and makes its move. */
  lemma BrowseReads(current: Option<string>, lines: seq<string>, i: nat, shown: seq<string>,
                    load: Loader, pages: seq<string>)
    requires i < |lines| && (HasPage(current) ==> load(current.value).Some?)
    ensures var shown' := if HasPage(current) then shown + [current.value] else shown;
      Browse(current, lines, i, shown, load, pages) ==
        match Step(current, Command(lines[i]), load, pages)
        case Exit => Session(true, shown', current)
        case Goto(next) => Browse(next, lines, i + 1, shown', load, pages)
  {
  }

  /** With no line left, the loop ends once the current page is shown. */
  lemma BrowseEnds(current: Option<string>, lines: seq<string>, shown: seq<string>,
                   load: Loader, pages: seq<string>)
    requires HasPage(current) ==> load(current.value).Some?
    ensures Browse(current, lines, |lines|, shown, load, pages) ==
      Session(false, if HasPage(current) then shown + [current.value] else shown, current)
  {
  }

  /** The session ends by `exit` exactly when some remaining line reads
      `exit` (in any case, with any surrounding blanks); otherwise every
      line is read and the input runs out. */
  lemma {:induction false} ExitIff(current: Option<string>, lines: seq<string>, i: nat, shown: seq<string>,
                                   load: Loader, pages: seq<string>)
    requires i <= |lines|
    ensures Browse(current, lines, i, shown, load, pages).exited <==>
      exists j :: i <= j < |lines| && Command(lines[j]) == "exit"
    decreases 2 * (|lines| - i) + (if HasPage(current) then 1 else 0)
  {
    if HasPage(current) && load(current.value).None? {
      FailedLoadGoesHome(current, lines, i, shown, load, pages);
      ExitIff(None, lines, i, shown + [current.value], load, pages);
    } else if i < |lines| {
      BrowseReads(current, lines, i, shown, load, pages);
      var m := Step(current, Command(lines[i]), load, pages);
      if m.Goto? {
        var shown' := if HasPage(current) then shown + [current.value] else shown;
        ExitIff(m.id, lines, i + 1, shown', load, pages);
        ExitLater(lines, i);
      }
    }
  }

  /** A line other than `exit` leaves the later lines to decide. */
  lemma ExitLater(lines: seq<string>, i: nat)
    requires i < |lines| && Command(lines[i]) != "exit"
    ensures (exists j :: i <= j < |lines| && Command(lines[j]) == "exit") <==>
      (exists j :: i + 1 <= j < |lines| && Command(lines[j]) == "exit")
  {
    if exists j :: i <= j < |lines| && Command(lines[j]) == "exit" {
      var j :| i <= j < |lines| && Command(lines[j]) == "exit";
      assert j != i;
    }
  }

  /** The pages shown so far are kept, every page shown has a non-empty
      id, and each line read shows at most one page beyond the first. */
  lemma {:induction false} ShownGrows(current: Option<string>, lines: seq<string>, i: nat, shown: seq<string>,
                                      load: Loader, pages: seq<string>)
    requires i <= |lines|
    ensures var r := Browse(current, lines, i, shown, load, pages);
      && shown <= r.shown
      && (forall k :: |shown| <= k < |r.shown| ==> r.shown[k] != "")
      && |r.shown| <= |shown| + (|lines| - i) + (if HasPage(current) then 1 else 0)
    decreases 2 * (|lines| - i) + (if HasPage(current) then 1 else 0)
  {
    if HasPage(current) {
      var shown' := shown + [current.value];
      match load(current.value)
      case None =>
        ShownGrows(None, lines, i, shown', load, pages);
      case Some(p) =>
        if i < |lines| {
          match PageCommand(p, current.value, Command(lines[i]))
          case Exit =>
          case Goto(next) =>
            ShownGrows(next, lines, i + 1, shown', load, pages);
        }
    } else if i < |lines| {
      match HomeCommand(pages, current, Command(lines[i]))
      case Exit =>
      case Goto(next) =>
        ShownGrows(next, lines, i + 1, shown, load, pages);
    }
  }

  /** The branches taken on a command typed below a page. */
  method PageStep(p: Page, current: string, cmd: string) returns (m: Move)
    ensures m == PageCommand(p, current, cmd)
  {
    if cmd == "exit" {
      return Exit;
    }
    var next := Some(current);
    if cmd == "back" {
      if |p.ancestors| > 0 {
        next := Some(p.ancestors[|p.ancestors| - 1]);
      } else {
        next := None;
      }
    } else if cmd == "home" {
      next := None;
    } else if IsDigits(cmd) {
      var childNum := DigitsValue(cmd);
      if |p.children| > 0 && 1 <= childNum <= |p.children| {
        next := Some(p.children[childNum - 1]);
      }
    } else {
      next := Some(cmd);
    }
    m := Goto(next);
  }

  /** The branches taken on a command typed below the page list. */
  method HomeStep(pages: seq<string>, current: Option<string>, cmd: string) returns (m: Move)
    ensures m == HomeCommand(pages, current, cmd)
  {
    if cmd == "exit" {
      return Exit;
    }
    var next := current;
    if IsDigits(cmd) {
      var pageNum := DigitsValue(cmd);
      if 1 <= pageNum <= |pages| {
        next := Some(pages[pageNum - 1]);
      }
    } else {
      next := Some(cmd);
    }
    m := Goto(next);
  }

  /** One pass of the loop: show the current page (or the page list), read
      a command and move, or end the session. */
  method Pass(current: Option<string>, lines: seq<string>, i: nat, shown: seq<string>, load: Loader, pages: seq<string>)
    returns (current': Option<string>, i': nat, shown': seq<string>, s: Session, done: bool)
    requires i <= |lines|
    ensures i' <= |lines|
    ensures done ==> s == Browse(current, lines, i, shown, load, pages)
    ensures !done ==> Browse(current', lines, i', shown', load, pages) == Browse(current, lines, i, shown, load, pages)
    ensures !done ==> 2 * (|lines| - i') + (if HasPage(current') then 1 else 0)
                      < 2 * (|lines| - i) + (if HasPage(current) then 1 else 0)
  {
    current', i', shown', s, done := current, i, shown, Session(false, shown, current), false;
    var page: Option<Page> := None;
    if current.Some? && current.value != "" {
      page := load(current.value);
      shown' := shown + [current.value];
      if page.None? {
        FailedLoadGoesHome(current, lines, i, shown, load, pages);
        current' := None;
        return;
      }
    }
    if i == |lines| {
      BrowseEnds(current, lines, shown, load, pages);
      s, done := Session(false, shown', current), true;
      return;
    }
    BrowseReads(current, lines, i, shown, load, pages);
    var m: Move;
    if current.Some? && current.value != "" {
      m := PageStep(page.value, current.value, Lower(Strip(lines[i])));
    } else {
      m := HomeStep(pages, current, Lower(Strip(lines[i])));
    }
    i' := i + 1;
    match m {
      case Exit => s, done := Session(true, shown', current), true;
      case Goto(next) => current' := next;
    }
  }

  /** `interactive_mode(fetcher, initial_page_id)` over the typed lines. */
  method InteractiveMode(initial: Option<string>, lines: seq<string>, load: Loader, pages: seq<string>)
    returns (s: Session)
    ensures s == Browse(initial, lines, 0, [], load, pages)
  {
    var current := initial;
    var i := 0;
    var shown: seq<string> := [];
    var done := false;
    s := Session(false, [], initial);
    while !done
      invariant i <= |lines|
      invariant !done ==> Browse(current, lines, i, shown, load, pages) == Browse(initial, lines, 0, [], load, pages)
      invariant done ==> s == Browse(initial, lines, 0, [], load, pages)
      decreases (if done then 0 else 1), 2 * (|lines| - i) + (if HasPage(current) then 1 else 0)
    {
      current, i, shown, s, done := Pass(current, lines, i, shown, load, pages);
    }
  }
}
