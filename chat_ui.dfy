/** The decision logic of the Streamlit chat page: the incident table's
    pagination, the answer text shown for a chain response, and the
    update options offered for an incident. */
module ChatUi {
  import opened Common
  import opened Text
  import opened PyValues

  // ---------------------------------------------------------------------
  // Pagination

  /** The choices of the rows-per-page select box. */
  const RowsChoices: seq<nat> := [5, 10, 20, 50]

  /** `(n + rows - 1) // rows`. */
  function TotalPages(n: nat, rows: nat): nat
    requires rows > 0
  {
    (n + rows - 1) / rows
  }

  /** The number of pages is the ceiling of `n / rows`: the pages before
      the last hold fewer than `n` rows, and all of them hold at least
      `n`. */
  lemma TotalPagesCeiling(n: nat, rows: nat)
    requires rows > 0
    ensures n == 0 ==> TotalPages(n, rows) == 0
    ensures n > 0 ==> (TotalPages(n, rows) >= 1
                       && (TotalPages(n, rows) - 1) * rows < n <= TotalPages(n, rows) * rows)
  {
    var t := TotalPages(n, rows);
    assert t * rows <= n + rows - 1 < (t + 1) * rows;
  }

  /** The page after the range check: below 1 becomes 1, past the last
      page (when there is one) becomes the last page. */
  function Clamp(page: int, total: nat): int {
    if page < 1 then 1 else if page > total && total > 0 then total else page
  }

  lemma ClampInRange(page: int, total: nat)
    ensures total > 0 ==> 1 <= Clamp(page, total) <= total
    ensures total > 0 && 1 <= page <= total ==> Clamp(page, total) == page
    ensures total == 0 ==> Clamp(page, total) == if page < 1 then 1 else page
  {
  }

  /** The first index shown on `page`. */
  function PageStart(page: int, rows: nat): int {
    (page - 1) * rows
  }

  /** One past the last index shown on `page`. */
  function PageEnd(page: int, rows: nat, n: nat): int {
    if PageStart(page, rows) + rows < n then PageStart(page, rows) + rows else n
  }

  /** The rows of a page in range. */
  function PageSlice<T>(s: seq<T>, rows: nat, page: nat): (r: seq<T>)
    requires rows > 0 && 1 <= page <= TotalPages(|s|, rows)
    ensures 0 < |r| <= rows
  {
    TotalPagesCeiling(|s|, rows);
    assert (page - 1) * rows <= (TotalPages(|s|, rows) - 1) * rows;
    s[PageStart(page, rows)..PageEnd(page, rows, |s|)]
  }

  /** Pages 1 to `k` one after the other. */
  function FirstPages<T>(s: seq<T>, rows: nat, k: nat): seq<T>
    requires rows > 0 && k <= TotalPages(|s|, rows)
  {
    if k == 0 then [] else FirstPages(s, rows, k - 1) + PageSlice(s, rows, k)
  }

  /** The first `k` pages are the first `k * rows` rows (or all of them). */
  lemma {:induction false} FirstPagesPrefix<T>(s: seq<T>, rows: nat, k: nat)
    requires rows > 0 && k <= TotalPages(|s|, rows)
    ensures 0 <= PageEnd(k, rows, |s|) <= |s|
    ensures FirstPages(s, rows, k) == s[..PageEnd(k, rows, |s|)]
  {
    if k == 0 {
      assert PageStart(0, rows) + rows == 0;
    } else {
      FirstPagesPrefix(s, rows, k - 1);
      PageBounds(|s|, rows, k);
      assert s[..PageEnd(k, rows, |s|)] == s[..PageStart(k, rows)] + s[PageStart(k, rows)..PageEnd(k, rows, |s|)];
    }
  }

  /** An in-range page starts inside the list, right where the page before
      it ends. */
  lemma PageBounds(n: nat, rows: nat, k: nat)
    requires rows > 0 && 1 <= k <= TotalPages(n, rows)
    ensures 0 <= PageStart(k, rows) < n
    ensures PageEnd(k - 1, rows, n) == PageStart(k, rows)
    ensures PageStart(k, rows) <= PageEnd(k, rows, n) <= n
  {
    TotalPagesCeiling(n, rows);
    assert (k - 1) * rows <= (TotalPages(n, rows) - 1) * rows;
    assert PageStart(k - 1, rows) + rows == (k - 2) * rows + rows == (k - 1) * rows;
  }

  /** The pages tile the list: taken in order they give back every row
      exactly once. */
  lemma PagesTile<T>(s: seq<T>, rows: nat)
    requires rows > 0
    ensures FirstPages(s, rows, TotalPages(|s|, rows)) == s
  {
    TotalPagesCeiling(|s|, rows);
    FirstPagesPrefix(s, rows, TotalPages(|s|, rows));
    assert PageEnd(TotalPages(|s|, rows), rows, |s|) == |s|;
  }

  /** The page state kept across reruns of the page. */
  class PageState {
    var page: int
    var rowsPerPage: nat

    constructor ()
      ensures page == 1 && rowsPerPage == 10
    {
      page := 1;
      rowsPerPage := 10;
    }

    /** The incident table's pagination: stores the rows-per-page choice,
        brings the page back into range and returns the rows shown with
        their start and end indices. Nothing happens for an empty list. */
    method ShowPage<T>(incidents: seq<T>, selected: nat) returns (display: seq<T>, start: int, end: int)
      requires selected in RowsChoices
      modifies this
      ensures incidents == [] ==> page == old(page) && rowsPerPage == old(rowsPerPage) && display == []
      ensures incidents != [] ==>
        && rowsPerPage == selected
        && page == Clamp(old(page), TotalPages(|incidents|, selected))
        && 1 <= page <= TotalPages(|incidents|, selected)
        && start == PageStart(page, selected) && end == PageEnd(page, selected, |incidents|)
        && display == PageSlice(incidents, selected, page)
    {
      display, start, end := [], 0, 0;
      if incidents == [] {
        return;
      }
      rowsPerPage := selected;
      var totalPages := (|incidents| + rowsPerPage - 1) / rowsPerPage;
      if page < 1 {
        page := 1;
      } else if page > totalPages && totalPages > 0 {
        page := totalPages;
      }
      ClampInRange(old(page), totalPages);
      TotalPagesCeiling(|incidents|, rowsPerPage);
      start := (page - 1) * rowsPerPage;
      end := if start + rowsPerPage < |incidents| then start + rowsPerPage else |incidents|;
      assert (page - 1) * rowsPerPage <= (totalPages - 1) * rowsPerPage;
      display := incidents[start..end];
    }
  }

  /** The four navigation buttons under the table. */
  datatype Nav = First | Previous | Next | Last

  /** The page a navigation button leads to, or `None` when the button is
      disabled: First and Previous on page 1, Next and Last on the last
      page. */
  function Navigate(page: int, total: nat, nav: Nav): (r: Option<int>)
    ensures r.None? <==> (if nav in {First, Previous} then page == 1 else page == total)
  {
    match nav
    case First => if page == 1 then None else Some(1)
    case Previous => if page == 1 then None else Some(page - 1)
    case Next => if page == total then None else Some(page + 1)
    case Last => if page == total then None else Some(total)
  }

  /** From a page in range, every enabled button leads to a page in range
      and different from the current one. */
  lemma NavigateInRange(page: int, total: nat, nav: Nav)
    requires 1 <= page <= total
    ensures var r := Navigate(page, total, nav);
      r.Some? ==> 1 <= r.value <= total && r.value != page
  {
  }

  // ---------------------------------------------------------------------
  // The answer text

  /** The text taken from a chain response, before clean-up: a nested
      `answer.answer`, else a string `answer`, else the response's string
      form. */
  function ExtractAnswer(response: Value): (v: Value)
    ensures !response.Dict? ==> v == Str(Render(response))
  {
    if response.Dict? && Lookup(response.entries, "answer").Some? then
      var a := Lookup(response.entries, "answer").value;
      if a.Dict? && Lookup(a.entries, "answer").Some? then Lookup(a.entries, "answer").value
      else if a.Str? then a
      else Str(Render(response))
    else Str(Render(response))
  }

  /** The nested answer wins over everything; a string answer is taken as
      it is; any other shape falls back to the string form. */
  lemma ExtractAnswerCases(response: Value)
    ensures response.Dict? && "answer" in Keys(response.entries) ==>
      var a := Lookup(response.entries, "answer").value;
      && (a.Dict? && "answer" in Keys(a.entries) ==> ExtractAnswer(response) == Lookup(a.entries, "answer").value)
      && (!(a.Dict? && "answer" in Keys(a.entries)) && a.Str? ==> ExtractAnswer(response) == a)
      && (!(a.Dict? && "answer" in Keys(a.entries)) && !a.Str? ==> ExtractAnswer(response) == Str(Render(response)))
    ensures response.Dict? && "answer" !in Keys(response.entries) ==> ExtractAnswer(response) == Str(Render(response))
  {
  }

  /** The clean-up: strip, literal `\n` to a newline, `- ` to a bullet,
      literal `\"` to a quote, then drop leading newlines. */
  function Cleanup(s: string): (r: string)
    ensures r == [] || r[0] != '\n'
  {
    var t1 := Strip(s);
    var t2 := Replace(t1, ['\\', 'n'], "\n");
    var t3 := Replace(t2, "- ", "• ");
    var t4 := Replace(t3, ['\\', '"'], "\"");
    LStripChar(t4, '\n')
  }

  /** The message shown: the cleaned answer, or the error text when taking
      it raised (the nested answer is not a string). */
  function ChatReply(response: Value): (r: string)
    ensures ExtractAnswer(response).Str? ==> r == Cleanup(ExtractAnswer(response).s)
    ensures ExtractAnswer(response).Str? ==> NoDashSpace(r) && (r == [] || r[0] != '\n')
    ensures !ExtractAnswer(response).Str? ==>
      r == "Sorry, I encountered an error: '" + TypeName(ExtractAnswer(response)) + "' object has no attribute 'strip'"
  {
    match ExtractAnswer(response)
    case Str(s) => CleanupBullets(s); Cleanup(s)
    case v => "Sorry, I encountered an error: '" + TypeName(v) + "' object has no attribute 'strip'"
  }

  /** No `-` directly followed by a space. */
  predicate NoDashSpace(s: string) {
    forall i :: 0 <= i < |s| - 1 ==> !(s[i] == '-' && s[i + 1] == ' ')
  }

  /** The first character of a replacement: the replacement text's when
      the pattern starts the string, else the string's own. */
  lemma ReplaceHead(s: string, pat: string, rep: string)
    requires |pat| > 0 && |rep| > 0
    ensures s != [] <==> Replace(s, pat, rep) != []
    ensures s != [] ==> Replace(s, pat, rep)[0] == if |s| >= |pat| && pat <= s then rep[0] else s[0]
  {
  }

  /** After `- ` becomes a bullet, no `- ` is left. */
  lemma {:induction false} BulletsReplaced(s: string)
    ensures NoDashSpace(Replace(s, "- ", "• "))
    decreases |s|
  {
    var r := Replace(s, "- ", "• ");
    if |s| < 2 {
    } else if "- " <= s {
      BulletsReplaced(s[2..]);
      var rest := Replace(s[2..], "- ", "• ");
      assert r == "• " + rest;
      forall i | 0 <= i < |r| - 1 ensures !(r[i] == '-' && r[i + 1] == ' ') {
        if i >= 2 {
          assert r[i] == rest[i - 2] && r[i + 1] == rest[i - 1];
        }
      }
    } else {
      BulletsReplaced(s[1..]);
      var rest := Replace(s[1..], "- ", "• ");
      assert r == [s[0]] + rest;
      ReplaceHead(s[1..], "- ", "• ");
      forall i | 0 <= i < |r| - 1 ensures !(r[i] == '-' && r[i + 1] == ' ') {
        if i >= 1 {
          assert r[i] == rest[i - 1] && r[i + 1] == rest[i];
        } else if s[0] == '-' && rest[0] == ' ' {
          assert false;
        }
      }
    }
  }

  /** Turning `\"` into `"` never creates a `- `. */
  lemma {:induction false} QuotesKeepNoDash(s: string)
    requires NoDashSpace(s)
    ensures NoDashSpace(Replace(s, ['\\', '"'], "\""))
    decreases |s|
  {
    var pat := ['\\', '"'];
    var r := Replace(s, pat, "\"");
    if |s| < 2 {
    } else if pat <= s {
      assert NoDashSpace(s[2..]) by {
        forall i | 0 <= i < |s[2..]| - 1 ensures !(s[2..][i] == '-' && s[2..][i + 1] == ' ') {
          assert s[2..][i] == s[i + 2] && s[2..][i + 1] == s[i + 3];
        }
      }
      QuotesKeepNoDash(s[2..]);
      var rest := Replace(s[2..], pat, "\"");
      assert r == "\"" + rest;
      forall i | 0 <= i < |r| - 1 ensures !(r[i] == '-' && r[i + 1] == ' ') {
        if i >= 1 {
          assert r[i] == rest[i - 1] && r[i + 1] == rest[i];
        }
      }
    } else {
      assert NoDashSpace(s[1..]) by {
        forall i | 0 <= i < |s[1..]| - 1 ensures !(s[1..][i] == '-' && s[1..][i + 1] == ' ') {
          assert s[1..][i] == s[i + 1] && s[1..][i + 1] == s[i + 2];
        }
      }
      QuotesKeepNoDash(s[1..]);
      var rest := Replace(s[1..], pat, "\"");
      assert r == [s[0]] + rest;
      ReplaceHead(s[1..], pat, "\"");
      forall i | 0 <= i < |r| - 1 ensures !(r[i] == '-' && r[i + 1] == ' ') {
        if i >= 1 {
          assert r[i] == rest[i - 1] && r[i + 1] == rest[i];
        }
      }
    }
  }

  /** The cleaned text starts with no newline and holds no `- `: every
      dash-space became a bullet, and the later steps create none. */
  lemma CleanupBullets(s: string)
    ensures NoDashSpace(Cleanup(s))
  {
    var t2 := Replace(Strip(s), ['\\', 'n'], "\n");
    var t3 := Replace(t2, "- ", "• ");
    var t4 := Replace(t3, ['\\', '"'], "\"");
    BulletsReplaced(t2);
    QuotesKeepNoDash(t3);
    var r := LStripChar(t4, '\n');
    var d := |t4| - |r|;
    forall i | 0 <= i < |r| - 1 ensures !(r[i] == '-' && r[i + 1] == ' ') {
      assert r[i] == t4[d + i] && r[i + 1] == t4[d + i + 1];
    }
  }

  // ---------------------------------------------------------------------
  // Update options

  datatype UpdateOption = Resolve | UpdateHoldNotes | PutOnHold

  /** The "want to update" button is shown unless the incident is closed
      or resolved (ignoring case). */
  predicate UpdateOffered(state: string) {
    Lower(state) != "closed" && Lower(state) != "resolved"
  }

  /** The options shown once the update button was pressed: resolving is
      always there; an incident on hold gets its notes updated, any other
      is put on hold. */
  function UpdateOptions(state: string, showOptions: bool): (r: seq<UpdateOption>)
    ensures !showOptions <==> r == []
    ensures showOptions ==> |r| == 2 && r[0] == Resolve
    ensures showOptions ==> (r[1] == UpdateHoldNotes <==> Lower(state) == "on hold")
    ensures showOptions ==> (r[1] == PutOnHold <==> Lower(state) != "on hold")
  {
    LowerIdempotent(state);
    if !showOptions then []
    else [Resolve, if Lower(Lower(state)) == "on hold" then UpdateHoldNotes else PutOnHold]
  }

  /** Case does not matter: `On Hold` and `ON HOLD` get the same options
      as `on hold`, and `Closed` is as closed as `closed`. */
  lemma OptionsIgnoreCase(a: string, b: string, showOptions: bool)
    requires Lower(a) == Lower(b)
    ensures UpdateOffered(a) == UpdateOffered(b)
    ensures UpdateOptions(a, showOptions) == UpdateOptions(b, showOptions)
  {
  }
}
