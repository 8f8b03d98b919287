/** Record extraction: one row per item element, one entry per schema
    column, read from the item's child elements. */
module Extract {
  import opened Wrappers
  import opened Errors
  import opened Schema
  import opened Numbers
  import opened Xml

  /** One extracted record: column name to text. None stands for Python's
      None, the text of a present but empty element. */
  type Row = map<string, Option<string>>

  /** `child.find(f).text if child.find(f) is not None else ""`: the text
      of the first child tagged `field`, or the empty text when there is
      no such child. */
  function FieldText(item: Element, field: string): (r: Option<string>)
    ensures (forall i :: 0 <= i < |item.children| ==> item.children[i].tag != field) ==> r == Some("")
    ensures (exists i :: 0 <= i < |item.children| && item.children[i].tag == field) ==>
              exists i :: 0 <= i < |item.children| && item.children[i].tag == field
                && r == item.children[i].text
                && forall j :: 0 <= j < i ==> item.children[j].tag != field
  {
    match Find(item.children, field)
    case Some(child) => child.text
    case None => Some("")
  }

  /** The row built for one item: every schema column read with
      FieldText, the amount with its commas removed. An amount element
      without text fails, as `None.replace` does. */
  function ExtractRow(item: Element): (r: Result<Row, Error>)
    ensures r.Ok? <==> FieldText(item, AmountField).Some?
    ensures r.Err? ==> r.error == AttributeError
  {
    match FieldText(item, AmountField)
    case None => Err(AttributeError)
    case Some(amount) =>
      Ok(map f | f in Fields :: if f == AmountField then Some(StripCommas(amount)) else FieldText(item, f))
  }

  /** A row has exactly the schema's 24 columns, whichever children the
      item had, and its amount is the item's amount text without commas. */
  lemma RowShape(item: Element)
    requires ExtractRow(item).Ok?
    ensures ExtractRow(item).value.Keys == set f | f in Fields
    ensures |ExtractRow(item).value.Keys| == 24
    ensures AmountField in ExtractRow(item).value
    ensures ExtractRow(item).value[AmountField] == Some(StripCommas(FieldText(item, AmountField).value))
    ensures ',' !in ExtractRow(item).value[AmountField].value
  {
    FieldCount();
    SchemaShape();
  }

  /** The schema names 24 distinct columns. */
  lemma FieldCount()
    ensures |set f | f in Fields| == 24
  {
    SchemaShape();
    DistinctCard(Fields);
  }

  lemma {:induction false} DistinctCard(s: seq<string>)
    requires forall i, j :: 0 <= i < j < |s| ==> s[i] != s[j]
    ensures |set f | f in s| == |s|
  {
    if s != [] {
      var last := s[|s| - 1];
      var init := s[..|s| - 1];
      DistinctCard(init);
      assert (set f | f in s) == (set f | f in init) + {last};
      assert last !in init;
    }
  }

  /** A column the item has no child for reads as the empty text, never
      as an error; this holds for the amount too. */
  lemma MissingFieldIsEmpty(item: Element, f: string)
    requires f in Fields
    requires forall i :: 0 <= i < |item.children| ==> item.children[i].tag != f
    requires f != AmountField ==> ExtractRow(item).Ok?
    ensures ExtractRow(item).Ok? && f in ExtractRow(item).value
    ensures ExtractRow(item).value[f] == Some("")
  {
    if f == AmountField {
      StripCommasKeeps("");
    }
  }

  /** Text that came with the item is copied into the row unchanged, for
      every column but the amount; leading zeros of a code stay. */
  lemma TextCopied(item: Element, f: string, i: nat)
    requires ExtractRow(item).Ok?
    requires f in Fields && f != AmountField
    requires i < |item.children| && item.children[i].tag == f
    requires forall j :: 0 <= j < i ==> item.children[j].tag != f
    ensures f in ExtractRow(item).value
    ensures ExtractRow(item).value[f] == item.children[i].text
  {
    var r := FieldText(item, f);
    var k :| 0 <= k < |item.children| && item.children[k].tag == f
               && r == item.children[k].text
               && forall j :: 0 <= j < k ==> item.children[j].tag != f;
    assert k == i;
  }

  /** The rows of one page: the loop over `findall` appends one row per
      item in document order and stops at the first item that fails. */
  function ExtractRows(items: seq<Element>): (r: Result<seq<Row>, Error>)
    ensures r.Ok? <==> forall i :: 0 <= i < |items| ==> ExtractRow(items[i]).Ok?
    ensures r.Err? ==> r.error == AttributeError
    decreases |items|
  {
    if items == [] then Ok([])
    else
      var init, last := items[..|items| - 1], items[|items| - 1];
      assert forall i :: 0 <= i < |init| ==> init[i] == items[i];
      match ExtractRows(init)
      case Err(e) => Err(e)
      case Ok(rows) =>
        match ExtractRow(last)
        case Err(e) => Err(e)
        case Ok(row) => Ok(rows + [row])
  }

  /** A page that extracts has one row per item, the i-th row built from
      the i-th item. */
  lemma {:induction false} ExtractRowsValues(items: seq<Element>)
    requires ExtractRows(items).Ok?
    ensures |ExtractRows(items).value| == |items|
    ensures forall i :: 0 <= i < |items| ==> ExtractRows(items).value[i] == ExtractRow(items[i]).value
    decreases |items|
  {
    if items != [] {
      var init, last := items[..|items| - 1], items[|items| - 1];
      ExtractRowsValues(init);
      assert ExtractRows(items).value == ExtractRows(init).value + [ExtractRow(last).value];
      forall i | 0 <= i < |items|
        ensures ExtractRows(items).value[i] == ExtractRow(items[i]).value
      {
        if i < |init| { assert init[i] == items[i]; } else { assert items[i] == last; }
      }
    }
  }

  /** Once a prefix of the items fails, the whole page fails the same way:
      no later item is looked at. */
  lemma {:induction false} ExtractRowsStops(items: seq<Element>, k: nat)
    requires k <= |items|
    requires ExtractRows(items[..k]).Err?
    ensures ExtractRows(items) == ExtractRows(items[..k])
    decreases |items| - k
  {
    if k < |items| {
      var p := items[..k + 1];
      assert p[..|p| - 1] == items[..k];
      assert ExtractRows(p) == ExtractRows(items[..k]);
      ExtractRowsStops(items, k + 1);
    } else {
      assert items[..k] == items;
    }
  }
}
