// The beneficiary list: the search filter, the CSV export text and the
// selected-item test.

module BeneficiaryListPanel {
  import opened Common
  import opened Records

  /**
   * The search keeps a beneficiary whose lower-cased name contains the
   * lower-cased term, or whose id contains the term as typed. `lower` stands
   * for the browser's `toLowerCase`.
   */
  predicate Kept(b: Beneficiary, term: string, lower: string -> string) {
    Includes(lower(b.fullName), lower(term)) || Includes(b.id, term)
  }

  function Keeps(term: string, lower: string -> string): Beneficiary -> bool {
    (b: Beneficiary) => Kept(b, term, lower)
  }

  /** The listed beneficiaries: exactly the kept ones, in their original order. */
  function FilteredBeneficiaries(bs: seq<Beneficiary>, term: string, lower: string -> string)
    : (r: seq<Beneficiary>)
    ensures IsSubsequence(r, bs)
    ensures forall b :: b in r <==> b in bs && Kept(b, term, lower)
  {
    FilterIsSubsequence(Keeps(term, lower), bs);
    Filter(Keeps(term, lower), bs)
  }

  /** An empty term lists everybody, whatever the lower-casing does. */
  lemma EmptyTermKeepsAll(bs: seq<Beneficiary>, lower: string -> string)
    ensures FilteredBeneficiaries(bs, "", lower) == bs
  {
    forall b | b in bs
      ensures Keeps("", lower)(b)
    {
      IncludesEmpty(b.id);
    }
    FilterAll(Keeps("", lower), bs);
  }

  // ---------------------------------------------------------------------
  // Joining and splitting on a separator character

  /** `parts.join(sep)`. */
  function JoinOn(parts: seq<string>, sep: char): string {
    if parts == [] then ""
    else if |parts| == 1 then parts[0]
    else parts[0] + [sep] + JoinOn(parts[1..], sep)
  }

  /** The position of the first `c` in `s`, or `|s|` when there is none. */
  function IndexOf(s: string, c: char): (i: nat)
    ensures i <= |s|
    ensures forall j :: 0 <= j < i ==> s[j] != c
    ensures i < |s| ==> s[i] == c
  {
    if s == [] then 0
    else if s[0] == c then 0
    else 1 + IndexOf(s[1..], c)
  }

  /** `s.split(c)`. */
  function SplitOn(s: string, c: char): (r: seq<string>)
    ensures |r| >= 1
    decreases |s|
  {
    var i := IndexOf(s, c);
    if i == |s| then [s] else [s[..i]] + SplitOn(s[i + 1..], c)
  }

  lemma SplitAfterPart(p: string, rest: string, c: char)
    requires c !in p
    ensures SplitOn(p + [c] + rest, c) == [p] + SplitOn(rest, c)
  {
    var s := p + [c] + rest;
    var i := IndexOf(s, c);
    assert s[|p|] == c;
    assert s[..i] == p;
    assert s[i + 1..] == rest;
  }

  /** Splitting a join recovers the parts when no part contains the separator. */
  lemma {:induction false} SplitJoin(parts: seq<string>, c: char)
    requires |parts| >= 1
    requires forall k :: 0 <= k < |parts| ==> c !in parts[k]
    ensures SplitOn(JoinOn(parts, c), c) == parts
  {
    if |parts| > 1 {
      SplitJoin(parts[1..], c);
      SplitAfterPart(parts[0], JoinOn(parts[1..], c), c);
    }
  }

  lemma {:induction false} JoinOnAvoids(parts: seq<string>, sep: char, c: char)
    requires c != sep
    requires forall k :: 0 <= k < |parts| ==> c !in parts[k]
    ensures c !in JoinOn(parts, sep)
  {
    if |parts| > 1 {
      JoinOnAvoids(parts[1..], sep, c);
    }
  }

  // ---------------------------------------------------------------------
  // The CSV export

  /** The data-URI header, ending in a byte-order mark. */
  const CsvPrefix := "data:text/csv;charset=utf-8,\U{FEFF}"
  const HeaderLine := "الاسم,رقم الهوية,رقم الغرفة,تاريخ الدخول"

  function Quoted(s: string): string {
    ['"'] + s + ['"']
  }

  /** The four fields of a row, before quoting; quotes inside them are not escaped. */
  function RowFields(b: Beneficiary): seq<string> {
    [b.fullName, b.nationalId.GetOr(""), b.roomNumber.GetOr(""), b.enrollmentDate]
  }

  /** A row: the four fields, each in double quotes, separated by commas. */
  function Row(b: Beneficiary): string {
    var f := RowFields(b);
    JoinOn([Quoted(f[0]), Quoted(f[1]), Quoted(f[2]), Quoted(f[3])], ',')
  }

  function Rows(bs: seq<Beneficiary>): (r: seq<string>)
    ensures |r| == |bs|
    ensures forall k :: 0 <= k < |bs| ==> r[k] == Row(bs[k])
  {
    seq(|bs|, k requires 0 <= k < |bs| => Row(bs[k]))
  }

  /** The exported text: data-URI prefix, header line, then the rows joined by newlines. */
  function Csv(bs: seq<Beneficiary>, term: string, lower: string -> string): string {
    CsvPrefix + HeaderLine + "\n" + JoinOn(Rows(FilteredBeneficiaries(bs, term, lower)), '\n')
  }

  /** Neither a comma nor a newline occurs in any field. */
  predicate PlainFields(b: Beneficiary) {
    forall k :: 0 <= k < 4 ==> ',' !in RowFields(b)[k] && '\n' !in RowFields(b)[k]
  }

  /** With plain fields, a row splits on commas into its four quoted fields. */
  lemma RowSplitsIntoFields(b: Beneficiary)
    requires PlainFields(b)
    ensures var f := RowFields(b);
      SplitOn(Row(b), ',') == [Quoted(f[0]), Quoted(f[1]), Quoted(f[2]), Quoted(f[3])]
    ensures '\n' !in Row(b)
  {
    var f := RowFields(b);
    var q := [Quoted(f[0]), Quoted(f[1]), Quoted(f[2]), Quoted(f[3])];
    forall k | 0 <= k < 4
      ensures ',' !in q[k] && '\n' !in q[k]
    {
      assert q[k] == ['"'] + f[k] + ['"'];
    }
    SplitJoin(q, ',');
    JoinOnAvoids(q, ',', '\n');
  }

  /**
   * The text after the prefix splits into lines as the header followed by one
   * row per listed beneficiary, in list order, when at least one is listed
   * and no field contains a comma or newline.
   */
  lemma CsvLines(bs: seq<Beneficiary>, term: string, lower: string -> string)
    requires forall b :: b in bs ==> PlainFields(b)
    requires FilteredBeneficiaries(bs, term, lower) != []
    ensures var listed := FilteredBeneficiaries(bs, term, lower);
      Csv(bs, term, lower) == CsvPrefix + JoinOn([HeaderLine] + Rows(listed), '\n') &&
      SplitOn(JoinOn([HeaderLine] + Rows(listed), '\n'), '\n') == [HeaderLine] + Rows(listed)
  {
    var listed := FilteredBeneficiaries(bs, term, lower);
    var rows := Rows(listed);
    var lines := [HeaderLine] + rows;
    CsvIsJoin(bs, term, lower);
    forall k | 0 <= k < |lines|
      ensures '\n' !in lines[k]
    {
      if k == 0 {
        HeaderHasNoNewline();
      } else {
        assert lines[k] == Row(listed[k - 1]);
        RowSplitsIntoFields(listed[k - 1]);
      }
    }
    SplitJoin(lines, '\n');
  }

  /** With someone listed, the header is the first of the lines the export joins. */
  lemma CsvIsJoin(bs: seq<Beneficiary>, term: string, lower: string -> string)
    requires FilteredBeneficiaries(bs, term, lower) != []
    ensures Csv(bs, term, lower) == CsvPrefix + JoinOn([HeaderLine] + Rows(FilteredBeneficiaries(bs, term, lower)), '\n')
  {
    var rows := Rows(FilteredBeneficiaries(bs, term, lower));
    var lines := [HeaderLine] + rows;
    assert lines[1..] == rows;
    assert JoinOn(lines, '\n') == HeaderLine + "\n" + JoinOn(rows, '\n');
  }

  lemma HeaderHasNoNewline()
    ensures '\n' !in HeaderLine
  {
  }

  /** With nobody listed the export is the prefix and the header line alone. */
  lemma EmptyCsv(bs: seq<Beneficiary>, term: string, lower: string -> string)
    requires FilteredBeneficiaries(bs, term, lower) == []
    ensures Csv(bs, term, lower) == CsvPrefix + HeaderLine + "\n"
  {
  }

  // ---------------------------------------------------------------------
  // Selection

  /** An item is highlighted when the selection has its id and its full name. */
  predicate IsSelected(selected: Option<Beneficiary>, b: Beneficiary) {
    selected.Some? && selected.value.id == b.id && selected.value.fullName == b.fullName
  }

  /**
   * The selected beneficiary's own item is highlighted, and when no two
   * listed beneficiaries share both id and name, no other item is.
   */
  lemma SelectionHighlightsOne(bs: seq<Beneficiary>, k: int)
    requires 0 <= k < |bs|
    requires forall i, j :: 0 <= i < j < |bs| ==> bs[i].id != bs[j].id || bs[i].fullName != bs[j].fullName
    ensures IsSelected(Some(bs[k]), bs[k])
    ensures forall j :: 0 <= j < |bs| && IsSelected(Some(bs[k]), bs[j]) ==> j == k
  {
  }
}
