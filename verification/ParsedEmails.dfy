/** Parsed emails from the analyser's answer to the saved rows. */
module ParsedEmails {
  import opened Options
  import opened Text
  import opened Times
  import opened LineItems
  import opened Filtering

  /** Times are UTC instants; `extractedAt` is the time of the analysis. */
  datatype ParsedEmail = ParsedEmail(
    raw: Option<string>, display: Option<string>, vendor: Option<string>,
    billingNumber: Option<string>, invoiceNumber: Option<string>,
    amount: Option<Amount>, currency: Option<string>, billingDate: Option<int>, cycle: Option<string>,
    lines: seq<LineItem>, extractedAt: int)

  // ---------------------------------------------------------------------------------------
  // Normalisation
  // ---------------------------------------------------------------------------------------

  predicate IsCycleSeparator(c: char) {
    c == '_' || c == '-' || IsSpace(c)
  }

  function NormalizeCycle(s: Option<string>): Option<string> {
    if TrimOptional(s).None? then None
    else
      var cycle := Canonical(s.value, IsCycleSeparator, '_');
      if cycle == "" then None else Some(cycle)
  }

  function NormalizeParsed(p: ParsedEmail): ParsedEmail {
    ParsedEmail(TrimOptional(p.raw), TrimOptional(p.display), TrimOptional(p.vendor),
                TrimOptional(p.billingNumber), TrimOptional(p.invoiceNumber),
                p.amount, UpperOptional(p.currency), p.billingDate, NormalizeCycle(p.cycle),
                NormalizeItems(p.lines), p.extractedAt)
  }

  predicate NothingExtracted(p: ParsedEmail) {
    && p.raw.None? && p.display.None? && p.vendor.None? && p.billingNumber.None? && p.invoiceNumber.None?
    && p.amount.None? && p.currency.None? && p.billingDate.None? && p.cycle.None? && p.lines == []
  }

  lemma CycleTwice(s: Option<string>)
    ensures NormalizeCycle(NormalizeCycle(s)) == NormalizeCycle(s)
  {
    if NormalizeCycle(s).Some? {
      CanonicalTwice(s.value, IsCycleSeparator, '_');
      TrimmedStays(NormalizeCycle(s).value);
    }
  }

  /** Normalising a parsed email once is enough. */
  lemma ParsedTwice(p: ParsedEmail)
    ensures NormalizeParsed(NormalizeParsed(p)) == NormalizeParsed(p)
  {
    OptionalsTwice(p.raw);
    OptionalsTwice(p.display);
    OptionalsTwice(p.vendor);
    OptionalsTwice(p.billingNumber);
    OptionalsTwice(p.invoiceNumber);
    OptionalsTwice(p.currency);
    CycleTwice(p.cycle);
    NormalizeItemsSettles(p.lines);
    SettledStays(NormalizeItems(p.lines));
  }

  /** The parsed email normalised, unless it then says nothing. */
  function Cleaned(p: ParsedEmail): Option<ParsedEmail> {
    var q := NormalizeParsed(p);
    if NothingExtracted(q) then None else Some(q)
  }

  /** What `f` makes of the elements it keeps, in order. */
  function Collect<T>(xs: seq<T>, f: T -> Option<T>): seq<T> {
    if xs == [] then []
    else
      var last := f(xs[|xs| - 1]);
      Collect(xs[..|xs| - 1], f) + if last.None? then [] else [last.value]
  }

  lemma {:induction false} CollectAll<T>(xs: seq<T>, f: T -> Option<T>)
    requires forall i :: 0 <= i < |xs| ==> f(xs[i]) == Some(xs[i])
    ensures Collect(xs, f) == xs
  {
    if xs != [] {
      CollectAll(xs[..|xs| - 1], f);
    }
  }

  /** AnalysisOutput.Normalize and SaveInput.Normalize: the parsed emails that say something. */
  function NormalizeAll(ps: seq<ParsedEmail>): seq<ParsedEmail> {
    Collect(ps, Cleaned)
  }

  method NormalizeDrafts(ps: seq<ParsedEmail>) returns (r: seq<ParsedEmail>)
    ensures r == NormalizeAll(ps)
  {
    r := [];
    for i := 0 to |ps|
      invariant r == NormalizeAll(ps[..i])
    {
      assert ps[..i + 1][..i] == ps[..i];
      var p := NormalizeParsed(ps[i]);
      if !NothingExtracted(p) {
        r := r + [p];
      }
    }
    assert ps[..|ps|] == ps;
  }

  ghost predicate Clean(p: ParsedEmail) {
    NormalizeParsed(p) == p && !NothingExtracted(p)
  }

  ghost predicate AllClean(ps: seq<ParsedEmail>) {
    forall i :: 0 <= i < |ps| ==> Clean(ps[i])
  }

  lemma {:induction false} NormalizeAllCleans(ps: seq<ParsedEmail>)
    ensures AllClean(NormalizeAll(ps))
  {
    if ps != [] {
      NormalizeAllCleans(ps[..|ps| - 1]);
      ParsedTwice(ps[|ps| - 1]);
    }
  }

  lemma CleanStays(ps: seq<ParsedEmail>)
    requires AllClean(ps)
    ensures NormalizeAll(ps) == ps
  {
    forall i | 0 <= i < |ps|
      ensures Cleaned(ps[i]) == Some(ps[i])
    {
      assert Clean(ps[i]);
    }
    CollectAll(ps, Cleaned);
  }

  // ---------------------------------------------------------------------------------------
  // Fallback billing numbers
  // ---------------------------------------------------------------------------------------

  const FALLBACK_PREFIX := "digest_"

  predicate HasNumber(p: ParsedEmail) {
    p.billingNumber.Some? && Trim(p.billingNumber.value) != ""
  }

  function WithFallback(p: ParsedEmail, digest: string): ParsedEmail {
    if Trim(digest) == "" || HasNumber(p) then p
    else p.(billingNumber := Some(FALLBACK_PREFIX + Trim(digest)))
  }

  method ApplyFallbackBillingNumbers(a: array<ParsedEmail>, digest: string)
    modifies a
    ensures forall i :: 0 <= i < a.Length ==> a[i] == WithFallback(old(a[i]), digest)
  {
    var trimmed := Trim(digest);
    if trimmed == "" {
      return;
    }
    var fallback := FALLBACK_PREFIX + trimmed;
    for i := 0 to a.Length
      invariant forall k :: 0 <= k < i ==> a[k] == WithFallback(old(a[k]), digest)
      invariant forall k :: i <= k < a.Length ==> a[k] == old(a[k])
    {
      if a[i].billingNumber.Some? && Trim(a[i].billingNumber.value) != "" {
        continue;
      }
      a[i] := a[i].(billingNumber := Some(fallback));
    }
  }

  lemma FallbackTrimmed(digest: string)
    requires Trim(digest) != ""
    ensures TrimOptional(Some(FALLBACK_PREFIX + Trim(digest))) == Some(FALLBACK_PREFIX + Trim(digest))
  {
    TrimIsTrimmed(digest);
    var f := FALLBACK_PREFIX + Trim(digest);
    assert f[0] == 'd' && f[|f| - 1] == Trim(digest)[|Trim(digest)| - 1];
    TrimmedStays(f);
  }

  /** Numbering keeps a clean parsed email clean, and numbers it exactly when it or the mail's digest
      offers a number. */
  lemma FallbackClean(p: ParsedEmail, digest: string)
    requires Clean(p)
    ensures Clean(WithFallback(p, digest))
    ensures HasNumber(WithFallback(p, digest)) <==> HasNumber(p) || Trim(digest) != ""
  {
    if Trim(digest) != "" {
      FallbackTrimmed(digest);
    }
  }

  // ---------------------------------------------------------------------------------------
  // Bounds
  // ---------------------------------------------------------------------------------------

  /** The length of the UTF-8 encoding. */
  function Bytes(s: string): nat {
    if s == "" then 0
    else
      var here := if s[0] < '\U{80}' then 1 else if s[0] < '\U{800}' then 2 else if s[0] < '\U{10000}' then 3 else 4;
      here + Bytes(s[1..])
  }

  predicate FitsBytes(s: Option<string>, max: nat) {
    s.Some? ==> Bytes(s.value) <= max
  }

  /** At most three decimals, within the column. */
  predicate AmountFits(a: Option<Amount>) {
    a.Some? ==>
      && a.value.Finite?
      && -999999999999999.999 <= a.value.value <= 999999999999999.999
      && AtMostThreeDecimals(a.value.value)
  }

  predicate LineFits(l: LineItem) {
    FitsBytes(l.raw, 65535) && FitsBytes(l.display, 255) && AmountFits(l.amount) && FitsBytes(l.currency, 3)
  }

  predicate InBounds(p: ParsedEmail) {
    && FitsBytes(p.raw, 65535) && FitsBytes(p.display, 255) && FitsBytes(p.vendor, 65535)
    && FitsBytes(p.billingNumber, 255) && FitsBytes(p.invoiceNumber, 14) && FitsBytes(p.currency, 3)
    && FitsBytes(p.cycle, 32) && AmountFits(p.amount)
    && |p.lines| <= 200 && forall i :: 0 <= i < |p.lines| ==> LineFits(p.lines[i])
  }

  // ---------------------------------------------------------------------------------------
  // Saving
  // ---------------------------------------------------------------------------------------

  /** A row of parsed_emails; line items have no column. */
  datatype Row = Row(id: nat, user: nat, email: nat, run: string, position: int, parsed: ParsedEmail, prompt: string)

  datatype SaveInput = SaveInput(
    user: nat, email: nat, run: string, base: int, extractedAt: int, prompt: string, parsed: seq<ParsedEmail>)

  predicate InputValid(input: SaveInput) {
    && input.user != 0 && input.email != 0 && Trim(input.run) != "" && input.base >= 0
    && input.extractedAt != ZERO_TIME && Trim(input.prompt) != ""
    && forall i :: 0 <= i < |input.parsed| ==> InBounds(input.parsed[i])
  }

  function RowOf(input: SaveInput, p: ParsedEmail, i: nat, id: nat): Row {
    Row(id, input.user, input.email, Trim(input.run), input.base + i,
        NormalizeParsed(p.(extractedAt := input.extractedAt)).(lines := []), Trim(input.prompt))
  }

  function RowsOf(input: SaveInput, ps: seq<ParsedEmail>, firstId: nat): seq<Row> {
    seq(|ps|, i requires 0 <= i < |ps| => RowOf(input, ps[i], i, firstId + i))
  }

  /** What the repository returns for a saved row. */
  datatype Record = Record(id: nat, email: nat)

  function RecordOf(r: Row): Record {
    Record(r.id, r.email)
  }

  function RecordsOf(rows: seq<Row>): seq<Record> {
    seq(|rows|, i requires 0 <= i < |rows| => RecordOf(rows[i]))
  }

  method BuildRows(input: SaveInput, ps: seq<ParsedEmail>, firstId: nat) returns (added: seq<Row>)
    ensures added == RowsOf(input, ps, firstId)
  {
    added := [];
    for i := 0 to |ps|
      invariant added == RowsOf(input, ps, firstId)[..i]
    {
      added := added + [RowOf(input, ps[i], i, firstId + i)];
    }
  }

  method BuildRecords(rows: seq<Row>) returns (records: seq<Record>)
    ensures records == RecordsOf(rows)
  {
    records := [];
    for i := 0 to |rows|
      invariant records == RecordsOf(rows)[..i]
    {
      records := records + [RecordOf(rows[i])];
    }
  }

  ghost predicate IdsUnique(rows: seq<Row>, nextId: nat) {
    && nextId > 0 && (forall i :: 0 <= i < |rows| ==> 0 < rows[i].id < nextId)
    && (forall i, j :: 0 <= i < j < |rows| ==> rows[i].id != rows[j].id)
  }

  lemma RowsUnique(rows: seq<Row>, input: SaveInput, ps: seq<ParsedEmail>, nextId: nat)
    requires IdsUnique(rows, nextId)
    ensures IdsUnique(rows + RowsOf(input, ps, nextId), nextId + |ps|)
  {
    var all := rows + RowsOf(input, ps, nextId);
    assert forall i :: |rows| <= i < |all| ==> all[i].id == nextId + (i - |rows|);
  }

  class ParsedEmailRepository {
    var rows: seq<Row>
    var nextId: nat

    ghost predicate Valid()
      reads this
    {
      IdsUnique(rows, nextId)
    }

    constructor ()
      ensures Valid() && rows == []
    {
      rows, nextId := [], 1;
    }

    /** One insert statement for all rows; `fault` is a database error. */
    method SaveAll(input: SaveInput, fault: bool) returns (records: Option<seq<Record>>)
      requires Valid()
      modifies this
      ensures Valid()
      ensures var ps := NormalizeAll(input.parsed);
        if ps == [] then records == Some([]) && rows == old(rows)
        else if !InputValid(input.(parsed := ps)) || fault then records == None && rows == old(rows)
        else
          var added := RowsOf(input, ps, old(nextId));
          rows == old(rows) + added && records == Some(RecordsOf(added))
    {
      var ps := NormalizeDrafts(input.parsed);
      if ps == [] {
        return Some([]);
      }
      if !InputValid(input.(parsed := ps)) || fault {
        return None;
      }
      var added := BuildRows(input, ps, nextId);
      RowsUnique(rows, input, ps, nextId);
      rows := rows + added;
      nextId := nextId + |ps|;
      var built := BuildRecords(added);
      records := Some(built);
    }
  }

  /** The rows of clean parsed emails hold exactly what was analysed, line items apart. */
  lemma RowHoldsParsed(input: SaveInput, p: ParsedEmail, i: nat, id: nat)
    requires Clean(p)
    ensures RowOf(input, p, i, id).parsed == p.(extractedAt := input.extractedAt, lines := [])
  {
    ParsedTwice(p);
  }

  // ---------------------------------------------------------------------------------------
  // What normalising keeps
  // ---------------------------------------------------------------------------------------

  /** The words of a payment cycle, letter case aside. */
  function CycleWords(s: string): seq<string> {
    Fields(Lower(Trim(s)), IsCycleSeparator)
  }

  /** `t` has the words of the payment cycle with `_` between them, if there are any. */
  ghost predicate IsCycleOf(t: Option<string>, s: Option<string>) {
    if s.None? || CycleWords(s.value) == [] then t == None
    else t.Some? && CycleWords(t.value) == CycleWords(s.value) && t == Some(Join(CycleWords(s.value), "_"))
  }

  lemma CycleMeans(s: Option<string>)
    ensures IsCycleOf(NormalizeCycle(s), s)
  {
    if s.Some? {
      var words := CycleWords(s.value);
      CanonicalTwice(s.value, IsCycleSeparator, '_');
      LowerTwice(Trim(s.value));
      FieldsAreWords(Lower(Trim(s.value)), IsCycleSeparator);
      JoinShape(words, IsCycleSeparator, '_');
      var c := Join(words, "_");
      assert c == Canonical(s.value, IsCycleSeparator, '_');
      TrimmedStays(c);
    }
  }

  /** Each field is that of `p` in normal form; the product rows that say nothing are dropped. */
  ghost predicate IsNormalForm(n: ParsedEmail, p: ParsedEmail) {
    && IsTrimmed(n.raw, p.raw) && IsTrimmed(n.display, p.display) && IsTrimmed(n.vendor, p.vendor)
    && IsTrimmed(n.billingNumber, p.billingNumber) && IsTrimmed(n.invoiceNumber, p.invoiceNumber)
    && n.amount == p.amount && IsTrimmedUpper(n.currency, p.currency)
    && n.billingDate == p.billingDate && n.extractedAt == p.extractedAt && IsCycleOf(n.cycle, p.cycle)
    && KeepsRows(n.lines, p.lines)
  }

  lemma NormalFormOf(p: ParsedEmail)
    ensures IsNormalForm(NormalizeParsed(p), p)
  {
    OptionalMeans(p.raw);
    OptionalMeans(p.display);
    OptionalMeans(p.vendor);
    OptionalMeans(p.billingNumber);
    OptionalMeans(p.invoiceNumber);
    OptionalMeans(p.currency);
    CycleMeans(p.cycle);
    ItemsKept(p.lines);
  }

  /** The parsed email has something to say. */
  ghost predicate Speaks(p: ParsedEmail) {
    || !SaysNothing(p.raw) || !SaysNothing(p.display) || !SaysNothing(p.vendor) || !SaysNothing(p.billingNumber)
    || !SaysNothing(p.invoiceNumber) || p.amount.Some? || !SaysNothing(p.currency) || p.billingDate.Some?
    || (p.cycle.Some? && CycleWords(p.cycle.value) != [])
    || exists i :: 0 <= i < |p.lines| && SaysSomething(p.lines[i])
  }

  lemma SpeaksExactly(p: ParsedEmail)
    ensures NothingExtracted(NormalizeParsed(p)) <==> !Speaks(p)
  {
    NormalFormOf(p);
    NormalizeItemsSettles(p.lines);
    forall i | 0 <= i < |p.lines|
      ensures IsEmpty(Normalize(p.lines[i])) <==> !SaysSomething(p.lines[i])
    {
      NormalMeans(p.lines[i]);
    }
  }

  /** Exactly those that have something to say are kept, in order and in normal form. */
  ghost predicate KeepsParsed(kept: seq<ParsedEmail>, ps: seq<ParsedEmail>) {
    Keeps(kept, ps, Speaks, IsNormalForm)
  }

  lemma {:induction false} ParsedKept(ps: seq<ParsedEmail>)
    ensures KeepsParsed(NormalizeAll(ps), ps)
  {
    if ps != [] {
      var last := |ps| - 1;
      ParsedKept(ps[..last]);
      NormalFormOf(ps[last]);
      SpeaksExactly(ps[last]);
      OneMore(NormalizeAll(ps[..last]), NormalizeAll(ps), ps, Speaks, IsNormalForm, NormalizeParsed(ps[last]));
    }
  }

  /** `n` is `p` with a number made from the digest where `p` has none and the digest says something. */
  ghost predicate IsNumbered(n: ParsedEmail, p: ParsedEmail, digest: string) {
    n == if SaysNothing(p.billingNumber) && !AllSpace(digest)
         then p.(billingNumber := Some("digest_" + Trim(digest)))
         else p
  }

  lemma FallbackMeans(p: ParsedEmail, digest: string)
    ensures IsNumbered(WithFallback(p, digest), p, digest)
  {
    BlankMeans(digest);
    if p.billingNumber.Some? {
      BlankMeans(p.billingNumber.value);
    }
  }

  /** What a saved row says besides what was analysed: whose it is, which run saved it, and its place. */
  lemma RowMeans(input: SaveInput, ps: seq<ParsedEmail>, firstId: nat, i: nat)
    requires i < |ps|
    ensures var row := RowsOf(input, ps, firstId)[i];
      && |RowsOf(input, ps, firstId)| == |ps|
      && row.id == firstId + i && row.user == input.user && row.email == input.email
      && row.run == Trim(input.run) && row.position == input.base + i && row.prompt == Trim(input.prompt)
      && row.parsed.extractedAt == input.extractedAt && row.parsed.lines == []
  {
  }
}
