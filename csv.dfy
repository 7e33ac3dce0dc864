/**
 * The text that exportToCsv produces: a header line, then one line per
 * selected transaction, fields joined by ';' with every ';' inside a field
 * written as "\;".
 */
module CsvExport {
  import opened Wrappers
  import opened Amounts
  import opened TransactionTypes
  import opened Transactions
  import opened Users

  const Separator: char := ';'
  const Backslash: char := '\\'

  /** str_replace(';', '\;', field) */
  function EscapeField(f: string): (r: string)
    ensures |r| >= |f|
    ensures |f| > 0 ==> |r| > 0 && r[0] != Separator
    ensures |f| > 0 ==> (r[|r| - 1] == Backslash <==> f[|f| - 1] == Backslash)
  {
    if |f| == 0 then ""
    else (if f[0] == Separator then [Backslash, Separator] else [f[0]]) + EscapeField(f[1..])
  }

  /** Reads "\;" back as ';' and keeps every other character. */
  function UnescapeField(s: string): string {
    if |s| == 0 then ""
    else if |s| >= 2 && s[0] == Backslash && s[1] == Separator then [Separator] + UnescapeField(s[2..])
    else [s[0]] + UnescapeField(s[1..])
  }

  /** Escaping loses nothing: every field is recovered from its escaped form. */
  lemma {:induction false} UnescapeEscape(f: string)
    ensures UnescapeField(EscapeField(f)) == f
  {
    if |f| > 0 {
      var rest := EscapeField(f[1..]);
      UnescapeEscape(f[1..]);
      if f[0] == Separator {
        assert EscapeField(f) == [Backslash, Separator] + rest;
        assert EscapeField(f)[2..] == rest;
      } else {
        assert EscapeField(f) == [f[0]] + rest;
        assert EscapeField(f)[1..] == rest;
      }
    }
  }

  /** implode(';', fields) */
  function Join(fields: seq<string>): string {
    if |fields| == 0 then ""
    else if |fields| == 1 then fields[0]
    else fields[0] + [Separator] + Join(fields[1..])
  }

  function EscapeAll(fields: seq<string>): (r: seq<string>)
    ensures |r| == |fields| && forall k :: 0 <= k < |r| ==> r[k] == EscapeField(fields[k])
  {
    if |fields| == 0 then [] else [EscapeField(fields[0])] + EscapeAll(fields[1..])
  }

  function UnescapeAll(fields: seq<string>): (r: seq<string>)
    ensures |r| == |fields| && forall k :: 0 <= k < |r| ==> r[k] == UnescapeField(fields[k])
  {
    if |fields| == 0 then [] else [UnescapeField(fields[0])] + UnescapeAll(fields[1..])
  }

  /** One record's line, without its newline. */
  function RowText(fields: seq<string>): string {
    Join(EscapeAll(fields))
  }

  /**
   * Splits a line at every ';' that does not follow a backslash; `cur` is the
   * text of the field read so far.
   */
  function Split(s: string, cur: string): (r: seq<string>)
    ensures |r| >= 1
  {
    if |s| == 0 then [cur]
    else if s[0] == Separator && !(|cur| > 0 && cur[|cur| - 1] == Backslash) then [cur] + Split(s[1..], "")
    else Split(s[1..], cur + [s[0]])
  }

  /** Reads a line back into fields. */
  function ParseRow(line: string): seq<string> {
    UnescapeAll(Split(line, ""))
  }

  /** One escaped separator: the backslash shields the ';' from the splitter. */
  lemma SplitEscapedSeparator(after: string, cur: string)
    ensures Split([Backslash, Separator] + after, cur) == Split(after, cur + [Backslash, Separator])
  {
    var withSep := [Separator] + after;
    assert ([Backslash, Separator] + after)[1..] == withSep;
    assert withSep[1..] == after;
    assert cur + [Backslash] + [Separator] == cur + [Backslash, Separator];
  }

  /** Any character but ';' joins the current field. */
  lemma SplitPlainChar(c: char, after: string, cur: string)
    requires c != Separator
    ensures Split([c] + after, cur) == Split(after, cur + [c])
  {
    assert ([c] + after)[1..] == after;
  }

  /** Inside an escaped field every ';' follows a backslash, so the splitter never breaks it. */
  lemma {:induction false} EscapedFieldStaysWhole(f: string, tail: string, cur: string)
    ensures Split(EscapeField(f) + tail, cur) == Split(tail, cur + EscapeField(f))
  {
    if |f| == 0 {
      assert EscapeField(f) + tail == tail;
      assert cur + EscapeField(f) == cur;
    } else {
      var rest := EscapeField(f[1..]);
      var head := if f[0] == Separator then [Backslash, Separator] else [f[0]];
      assert EscapeField(f) == head + rest;
      assert EscapeField(f) + tail == head + (rest + tail);
      if f[0] == Separator {
        SplitEscapedSeparator(rest + tail, cur);
      } else {
        SplitPlainChar(f[0], rest + tail, cur);
      }
      EscapedFieldStaysWhole(f[1..], tail, cur + head);
      assert cur + head + rest == cur + EscapeField(f);
    }
  }

  predicate EndsWithBackslash(f: string) {
    |f| > 0 && f[|f| - 1] == Backslash
  }

  /** A ';' after a field that does not end in a backslash closes that field. */
  lemma SplitAtSeparator(field: string, tail: string)
    requires !EndsWithBackslash(field)
    ensures Split([Separator] + tail, field) == [field] + Split(tail, "")
  {
    assert ([Separator] + tail)[1..] == tail;
  }

  /** One field of a line: its escaped text, a separator, then the rest of the line. */
  lemma SplitStep(f: string, tailText: string, more: seq<string>)
    requires !EndsWithBackslash(f)
    requires Split(tailText, "") == more
    ensures Split(EscapeField(f) + ([Separator] + tailText), "") == [EscapeField(f)] + more
  {
    var head := EscapeField(f);
    EscapedFieldStaysWhole(f, [Separator] + tailText, "");
    assert "" + head == head;
    SplitAtSeparator(head, tailText);
  }

  lemma {:induction false} SplitEscapedFields(fields: seq<string>)
    requires |fields| >= 1
    requires forall k :: 0 <= k < |fields| - 1 ==> !EndsWithBackslash(fields[k])
    ensures Split(Join(EscapeAll(fields)), "") == EscapeAll(fields)
  {
    var escaped := EscapeAll(fields);
    var head := EscapeField(fields[0]);
    if |fields| == 1 {
      EscapedFieldStaysWhole(fields[0], "", "");
      assert "" + head == head;
      assert Join(escaped) == head + "";
      assert escaped == [head];
    } else {
      var more := EscapeAll(fields[1..]);
      assert escaped == [head] + more;
      assert Join(escaped) == head + ([Separator] + Join(more));
      SplitEscapedFields(fields[1..]);
      SplitStep(fields[0], Join(more), more);
    }
  }

  /**
   * A line reads back as the fields that produced it, provided no field
   * other than the last ends with a backslash.
   */
  lemma RowRoundTrip(fields: seq<string>)
    requires |fields| >= 1
    requires forall k :: 0 <= k < |fields| - 1 ==> !EndsWithBackslash(fields[k])
    ensures ParseRow(RowText(fields)) == fields
  {
    SplitEscapedFields(fields);
    forall k | 0 <= k < |fields|
      ensures UnescapeField(EscapeField(fields[k])) == fields[k]
    {
      UnescapeEscape(fields[k]);
    }
  }

  /**
   * The escaping leaves a field that ends in a backslash indistinguishable
   * from an escaped separator: two different records give the same line.
   */
  lemma TrailingBackslashIsAmbiguous()
    ensures RowText(["a\\", "b"]) == RowText(["a;b"]) == "a\\;b"
  {
    assert EscapeField("a\\") == "a\\";
    assert EscapeField("b") == "b";
    assert EscapeField("a;b") == "a\\;b";
    assert EscapeAll(["a\\", "b"]) == ["a\\", "b"];
    assert EscapeAll(["a;b"]) == ["a\\;b"];
  }

  /** The header line: the nine column titles joined by ';', not escaped. */
  const HeaderLine: string := "ID;Emisor;Receptor;Monto;Tipo;Estado;Referencia;Descripción;Fecha\n"

  /** The export's optional filters; each absent one selects everything. */
  datatype CsvFilters = CsvFilters(
    startDay: Option<int>,
    endDay: Option<int>,
    status: Option<string>,
    kind: Option<string>)

  predicate Selects(f: CsvFilters, d: TransactionData) {
    (f.startDay.Some? ==> Day(d.createdAt) >= f.startDay.value)
    && (f.endDay.Some? ==> Day(d.createdAt) <= f.endDay.value)
    && (f.status.Some? ==> StatusValue(d.status) == f.status.value)
    && (f.kind.Some? ==> Value(d.kind) == f.kind.value)
  }

  /** The selected rows, newest first. */
  function Selected(rows: seq<TransactionData>, f: CsvFilters): (r: seq<TransactionData>)
    ensures forall d :: d in r <==> d in rows && Selects(f, d)
  {
    if |rows| == 0 then []
    else
      var rest := Selected(rows[..|rows| - 1], f);
      var last := rows[|rows| - 1];
      assert rows == rows[..|rows| - 1] + [last];
      if Selects(f, last) then [last] + rest else rest
  }

  /**
   * When the table's ids increase row by row, the selection lists strictly
   * decreasing ids: newest first, and no row twice.
   */
  lemma {:induction false} SelectedNewestFirst(rows: seq<TransactionData>, f: CsvFilters)
    requires forall k :: 0 <= k < |rows| ==> rows[k].id.Some?
    requires forall i, j :: 0 <= i < j < |rows| ==> rows[i].id.value < rows[j].id.value
    ensures forall k :: 0 <= k < |Selected(rows, f)| ==> Selected(rows, f)[k].id.Some?
    ensures forall i, j :: 0 <= i < j < |Selected(rows, f)| ==> Selected(rows, f)[i].id.value > Selected(rows, f)[j].id.value
  {
    var r := Selected(rows, f);
    forall k | 0 <= k < |r| ensures r[k].id.Some? {
      assert r[k] in rows;
    }
    if |rows| > 0 {
      var init := rows[..|rows| - 1];
      var last := rows[|rows| - 1];
      SelectedNewestFirst(init, f);
      var rest := Selected(init, f);
      forall d | d in rest ensures d.id.Some? && d.id.value < last.id.value {
        var k :| 0 <= k < |init| && init[k] == d;
        assert rows[k] == d;
      }
    }
  }

  function DigitChar(d: nat): char
    requires d < 10
  {
    "0123456789"[d]
  }

  /** An integer id as PHP casts it to a string. */
  function NatText(n: nat): string {
    if n < 10 then [DigitChar(n)] else NatText(n / 10) + [DigitChar(n % 10)]
  }

  /** A party's name through the relation, or "N/A" when no active user has that id. */
  function NameOr(users: seq<UserData>, id: int): string {
    if ActiveId(users, id) then users[id - 1].name else "N/A"
  }

  /**
   * The nine fields of a record.  The amount is printed by number_format and
   * the creation time by Carbon's format; both printers are parameters.
   */
  function Fields(d: TransactionData, users: seq<UserData>,
                  amountText: Amount -> string, timeText: int -> string): seq<string>
  {
    [NatText(d.id.GetOr(0)), NameOr(users, d.senderId), NameOr(users, d.receiverId),
     amountText(d.amount), Value(d.kind), StatusValue(d.status), d.reference,
     d.description.GetOr(""), timeText(d.createdAt)]
  }

  function RecordLine(d: TransactionData, users: seq<UserData>,
                      amountText: Amount -> string, timeText: int -> string): string
  {
    RowText(Fields(d, users, amountText, timeText)) + "\n"
  }

  function Lines(ds: seq<TransactionData>, users: seq<UserData>,
                 amountText: Amount -> string, timeText: int -> string): string
  {
    if |ds| == 0 then ""
    else Lines(ds[..|ds| - 1], users, amountText, timeText) + RecordLine(ds[|ds| - 1], users, amountText, timeText)
  }

  /** The whole document: the header line and then every selected record's line. */
  function Document(rows: seq<TransactionData>, f: CsvFilters, users: seq<UserData>,
                    amountText: Amount -> string, timeText: int -> string): string
  {
    HeaderLine + Lines(Selected(rows, f), users, amountText, timeText)
  }
}
