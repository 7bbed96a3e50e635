/** The create-budget dialog of the admin client: its own decimal money formatter, the guard on
    the amount input, and the creation of new category and fund options. */
module BudgetModal {
  import opened Seqs
  import opened Text
  import opened Js
  import opened Money

  predicate IsDigitOrDot(c: char) {
    IsDigit(c) || c == '.'
  }

  predicate NotComma(c: char) {
    c != ','
  }

  /** `value.replace(/[^\d.]/g, "")`: every digit and dot of the input, in order. */
  function Clean(value: string): (r: string)
    ensures forall i :: 0 <= i < |r| ==> IsDigitOrDot(r[i])
    ensures IsSubsequence(r, value)
    ensures |r| == Count(value, IsDigitOrDot)
  {
    FilterMembers(value, IsDigitOrDot);
    FilterLength(value, IsDigitOrDot);
    Filter(value, IsDigitOrDot)
  }

  /** The formatting of a cleaned value: split at `.`; the first piece grouped in threes with
      `,`; when there is a `.`, one `.` and the first two characters of the second piece follow. */
  function FormatCleaned(s: string): string {
    var parts := Split(s, '.');
    var integerPart := parts[0];
    var decimalPart := if |parts| > 1 then parts[1] else "";
    var formattedInteger := GroupThousands(integerPart, ',');
    if |parts| > 1 then formattedInteger + "." + Slice(decimalPart, 0, 2) else formattedInteger
  }

  /** The dialog's `formatMoney(value)`. Without a `.` the display is the groups of the digits
      joined by `,`; with one, the grouped whole part is followed by one `.` and at most two
      characters; and for a value the amount pattern accepts, removing the commas gives the
      cleaned value back. */
  function FormatDecimal(value: string): (r: string)
    ensures '.' !in Clean(value) ==> r == GroupThousands(Clean(value), ',') && Split(r, ',') == Groups(Clean(value))
    ensures '.' in Clean(value) ==>
              var parts := Split(Clean(value), '.');
              && |parts| > 1
              && r == GroupThousands(parts[0], ',') + "." + Slice(parts[1], 0, 2)
              && |Slice(parts[1], 0, 2)| <= 2
              && '.' !in GroupThousands(parts[0], ',') && '.' !in Slice(parts[1], 0, 2)
    ensures IsAmountText(Clean(value)) ==> Filter(r, NotComma) == Clean(value)
  {
    FormatCleanedFacts(Clean(value));
    FormatCleaned(Clean(value))
  }

  /** `/^\d*\.?\d{0,2}$/`: digits, then at most one `.` followed by at most two digits. */
  predicate IsAmountText(s: string) {
    AllDigits(s) ||
    (var parts := Split(s, '.'); |parts| == 2 && AllDigits(parts[0]) && AllDigits(parts[1]) && |parts[1]| <= 2)
  }

  /** The amount input: the accepted text (whose `parseFloat` the form stores) and what is shown. */
  datatype AmountInput = AmountInput(text: string, display: string)

  /** `handleAmountChange`: the cleaned input is taken, and shown formatted, only when it is empty
      or matches the amount pattern; otherwise nothing changes. */
  function HandleAmountChange(state: AmountInput, raw: string): (r: AmountInput)
    ensures IsAmountText(Clean(raw)) ==> r == AmountInput(Clean(raw), FormatDecimal(Clean(raw)))
    ensures !IsAmountText(Clean(raw)) ==> r == state
  {
    var numeric := Clean(raw);
    if numeric == "" || IsAmountText(numeric) then AmountInput(numeric, FormatDecimal(numeric)) else state
  }

  lemma CleanOfClean(s: string)
    requires forall i :: 0 <= i < |s| ==> IsDigitOrDot(s[i])
    ensures Clean(s) == s
  {
  }

  /** The facts `FormatDecimal` states, for a cleaned value. */
  lemma FormatCleanedFacts(s: string)
    requires forall i :: 0 <= i < |s| ==> IsDigitOrDot(s[i])
    ensures '.' !in s ==> FormatCleaned(s) == GroupThousands(s, ',') && Split(FormatCleaned(s), ',') == Groups(s)
    ensures '.' in s ==>
              var parts := Split(s, '.');
              && |parts| > 1
              && FormatCleaned(s) == GroupThousands(parts[0], ',') + "." + Slice(parts[1], 0, 2)
              && |Slice(parts[1], 0, 2)| <= 2
              && '.' !in GroupThousands(parts[0], ',') && '.' !in Slice(parts[1], 0, 2)
    ensures IsAmountText(s) ==> Filter(FormatCleaned(s), NotComma) == s
  {
    if '.' !in s {
      NoDotDisplay(s);
      WholeAmountGroups(s);
    } else {
      DotDisplay(s);
    }
    if AllDigits(s) {
      WholeAmountRoundTrip(s);
    } else if IsAmountText(s) {
      DecimalAmountRoundTrip(s);
    }
  }

  /** For an accepted amount the display is the typed text with `,` between the thousands:
      removing the commas gives the text back. */
  lemma AcceptedDisplayRoundTrip(state: AmountInput, raw: string)
    requires IsAmountText(Clean(raw))
    ensures var r := HandleAmountChange(state, raw); Filter(r.display, NotComma) == r.text
  {
    CleanOfClean(Clean(raw));
  }

  lemma WholeAmountRoundTrip(s: string)
    requires AllDigits(s)
    ensures Filter(FormatCleaned(s), NotComma) == s
  {
    assert '.' !in s;
    SplitUnique(s, '.', [s]);
    ReplaceThenFilter(s, ',', 0, NotComma);
  }

  /** The pieces of a whole amount's display between the commas are the reference groups. */
  lemma WholeAmountGroups(s: string)
    requires AllDigits(s)
    ensures Split(FormatCleaned(s), ',') == Groups(s)
  {
    NoDotDisplay(s);
    var g := Groups(s);
    GroupThousandsIsJoin(s, ',');
    forall i | 0 <= i < |g| ensures ',' !in g[i] {
      assert AllDigits(g[i]);
    }
    SplitUnique(FormatCleaned(s), ',', g);
  }

  lemma DecimalAmountRoundTrip(s: string)
    requires forall i :: 0 <= i < |s| ==> IsDigitOrDot(s[i])
    requires var parts := Split(s, '.'); |parts| == 2 && AllDigits(parts[0]) && AllDigits(parts[1]) && |parts[1]| <= 2
    ensures Filter(FormatCleaned(s), NotComma) == s
  {
    var parts := Split(s, '.');
    var whole, fraction := parts[0], parts[1];
    var g := GroupThousands(whole, ',');
    FormatCleanedOfPair(s);
    SplitPair(s, '.');
    ReplaceThenFilter(whole, ',', 0, NotComma);
    DropCommas(g, whole, fraction);
  }

  lemma FormatCleanedOfPair(s: string)
    requires var parts := Split(s, '.'); |parts| == 2 && |parts[1]| <= 2
    ensures var parts := Split(s, '.'); FormatCleaned(s) == GroupThousands(parts[0], ',') + ("." + parts[1])
  {
    var fraction := Split(s, '.')[1];
    assert Slice(fraction, 0, 2) == fraction;
  }

  lemma DropCommas(g: string, whole: string, fraction: string)
    requires Filter(g, NotComma) == whole
    requires AllDigits(fraction)
    ensures Filter(g + ("." + fraction), NotComma) == whole + "." + fraction
  {
    FilterConcat(g, "." + fraction, NotComma);
    FilterConcat(".", fraction, NotComma);
    assert forall i :: 0 <= i < |fraction| ==> NotComma(fraction[i]);
  }

  /** With no `.` the display is the grouped digits alone. */
  lemma NoDotDisplay(s: string)
    requires '.' !in s
    ensures FormatCleaned(s) == GroupThousands(s, ',')
  {
    SplitUnique(s, '.', [s]);
  }

  /** With a `.` the display has exactly one `.`, followed by at most two characters. */
  lemma DotDisplay(s: string)
    requires '.' in s
    ensures var parts := Split(s, '.');
              && |parts| > 1
              && FormatCleaned(s) == GroupThousands(parts[0], ',') + "." + Slice(parts[1], 0, 2)
              && |Slice(parts[1], 0, 2)| <= 2
              && '.' !in GroupThousands(parts[0], ',') && '.' !in Slice(parts[1], 0, 2)
  {
    var parts := Split(s, '.');
    if |parts| == 1 {
      SplitSingle(s, '.');
      assert false;
    }
    ReplaceKeepsOut(parts[0], ',', 0, '.');
  }

  /** The grouping adds only separators, so a character that is neither in the input nor the
      separator is not in the output. */
  lemma {:induction false} ReplaceKeepsOut(d: string, sep: char, i: nat, c: char)
    requires c != sep && c !in d && i <= |d|
    ensures c !in ReplaceFrom(d, sep, i)
    decreases |d| - i
  {
    if i < |d| {
      ReplaceKeepsOut(d, sep, i + 1, c);
    }
  }

  // Creating a category or fund option.

  /** A select option. */
  datatype Choice = Choice(value: string, caption: string)

  /** One option list of the dialog with its selection, the new-option input and whether that
      input is open. */
  datatype Picker = Picker(options: seq<Choice>, selected: string, input: string, adding: bool)

  /** `s.charAt(0).toUpperCase() + s.slice(1)` over ASCII letters. */
  function Capitalize(s: string): (r: string)
    ensures |r| == |s|
    ensures |s| > 0 ==> r[0] == UpperChar(s[0]) && r[1..] == s[1..]
  {
    if |s| == 0 then "" else [UpperChar(s[0])] + s[1..]
  }

  /** `handleCreateCategory` / `handleCreateFund`: nothing for a blank input; otherwise the option
      with the lower-cased input as value and the capitalised input as label (`caption`) is
      appended and selected, and the input is cleared and closed. */
  function CreateOption(p: Picker): (r: Picker)
    ensures Trim(p.input) == "" ==> r == p
    ensures Trim(p.input) != "" ==>
              && r.options == p.options + [Choice(Lower(p.input), Capitalize(p.input))]
              && r.selected == Lower(p.input)
              && r.input == "" && !r.adding
  {
    if Trim(p.input) != "" then
      var option := Choice(Lower(p.input), Capitalize(p.input));
      Picker(p.options + [option], option.value, "", false)
    else p
  }

  /** The two option lists of the dialog. */
  datatype Pickers = Pickers(category: Picker, fund: Picker)

  /** `handleCreateCategory`: creates a category option; the fund list is untouched. */
  function HandleCreateCategory(f: Pickers): (r: Pickers)
    ensures r.fund == f.fund
    ensures r.category == CreateOption(f.category)
  {
    f.(category := CreateOption(f.category))
  }

  /** `handleCreateFund`: creates a fund option; the category list is untouched. */
  function HandleCreateFund(f: Pickers): (r: Pickers)
    ensures r.category == f.category
    ensures r.fund == CreateOption(f.fund)
  {
    f.(fund := CreateOption(f.fund))
  }

  /** The existing options keep their places; the new one is last and is the selection. */
  lemma CreateOptionAppends(p: Picker)
    requires Trim(p.input) != ""
    ensures var r := CreateOption(p);
              && |r.options| == |p.options| + 1
              && r.options[..|p.options|] == p.options
              && r.options[|p.options|].value == r.selected
  {
    var r := CreateOption(p);
    assert r.options[..|p.options|] == p.options;
  }

  /** A created option's value has no capital letter. */
  lemma LowerHasNoCapitals(s: string)
    ensures forall i :: 0 <= i < |Lower(s)| ==> !('A' <= Lower(s)[i] <= 'Z')
  {
  }

  /** Creating from a cleared input does nothing, so a second press adds no second option. */
  lemma CreateOptionTwice(p: Picker)
    ensures CreateOption(CreateOption(p)) == CreateOption(p)
  {
    assert Trim("") == "";
  }

  // The dialog as a whole, and its submit.

  /** `categoryOptions`, the category options the dialog starts with. */
  const CATEGORY_OPTIONS: seq<Choice> := [
    Choice("housing", "Housing"), Choice("transportation", "Transportation"), Choice("food", "Food"),
    Choice("utilities", "Utilities"), Choice("healthcare", "Healthcare"),
    Choice("entertainment", "Entertainment"), Choice("other", "Other")]

  /** `fundOptions`, the fund options the dialog starts with. */
  const FUND_OPTIONS: seq<Choice> := [
    Choice("everyday", "Everyday"), Choice("emergency", "Emergency"), Choice("investment", "Investment"),
    Choice("saving", "Saving")]

  /** The fund a blank form selects. */
  const EVERYDAY: string := "everyday"

  /** The fields of the dialog's `Budget` that neither the amount input nor a picker holds. */
  datatype Draft = Draft(
    id: string,
    name: string,
    spent: int,
    startDate: string,
    endDate: string,
    status: string,
    note: string)

  /** The dialog's state: the draft, the amount input, and the two pickers, whose selections are
      the form's `category` and `fund`. */
  datatype Dialog = Dialog(draft: Draft, amount: AmountInput, pickers: Pickers)

  /** The `Budget` handed to `onSubmit`; the amount is the accepted amount text. */
  datatype Sent = Sent(
    id: string,
    name: string,
    amountText: string,
    spent: int,
    category: string,
    fund: string,
    startDate: string,
    endDate: string,
    status: string,
    note: string)

  /** The blank draft under the id `id`, which `crypto.randomUUID()` gives. */
  function BlankDraft(id: string): Draft {
    Draft(id, "", 0, "", "", "Active", "")
  }

  /** The dialog as first rendered. */
  function InitialDialog(id: string): (d: Dialog)
    ensures d.amount.text == "" && d.amount.display == ""
    ensures d.pickers.category.selected == "" && d.pickers.fund.selected == EVERYDAY
    ensures d.pickers.category.options == CATEGORY_OPTIONS && d.pickers.fund.options == FUND_OPTIONS
    ensures d.draft.id == id && d.draft.spent == 0 && d.draft.status == "Active"
  {
    Dialog(BlankDraft(id), AmountInput("", ""),
           Pickers(Picker(CATEGORY_OPTIONS, "", "", false), Picker(FUND_OPTIONS, EVERYDAY, "", false)))
  }

  /** `handleSubmit`: the form as it stands is sent; then the draft is blank under the fresh id
      `freshId`, the amount is cleared, the selections go back to no category and the everyday fund,
      and the option lists, with any created options, and the new-option inputs stay as they were. */
  function Submit(d: Dialog, freshId: string): (r: (Sent, Dialog))
    ensures var sent := r.0;
              && sent.id == d.draft.id && sent.name == d.draft.name && sent.amountText == d.amount.text
              && sent.spent == d.draft.spent && sent.status == d.draft.status && sent.note == d.draft.note
              && sent.startDate == d.draft.startDate && sent.endDate == d.draft.endDate
              && sent.category == d.pickers.category.selected && sent.fund == d.pickers.fund.selected
    ensures var next := r.1;
              && next.draft == InitialDialog(freshId).draft && next.amount == InitialDialog(freshId).amount
              && next.pickers.category == d.pickers.category.(selected := "")
              && next.pickers.fund == d.pickers.fund.(selected := EVERYDAY)
  {
    var p := d.pickers;
    var sent := Sent(d.draft.id, d.draft.name, d.amount.text, d.draft.spent, p.category.selected,
                     p.fund.selected, d.draft.startDate, d.draft.endDate, d.draft.status, d.draft.note);
    var next := Dialog(BlankDraft(freshId), AmountInput("", ""),
                       Pickers(p.category.(selected := ""), p.fund.(selected := EVERYDAY)));
    (sent, next)
  }

  /** After a submit the dialog sends what a freshly opened one would. */
  lemma SubmitThenSubmit(d: Dialog, first: string, second: string)
    ensures Submit(Submit(d, first).1, second).0 == Submit(InitialDialog(first), second).0
  {
  }

  /** A created category survives the submit as an option, and the submit sends it as the category. */
  lemma CreatedCategorySubmitted(d: Dialog, freshId: string)
    requires Trim(d.pickers.category.input) != ""
    ensures var created := d.(pickers := HandleCreateCategory(d.pickers));
              var (sent, next) := Submit(created, freshId);
              && sent.category == Lower(d.pickers.category.input)
              && Choice(Lower(d.pickers.category.input), Capitalize(d.pickers.category.input)) in next.pickers.category.options
  {
    var created := d.(pickers := HandleCreateCategory(d.pickers));
    assert created.pickers.category.options[|d.pickers.category.options|]
        == Choice(Lower(d.pickers.category.input), Capitalize(d.pickers.category.input));
  }
}
