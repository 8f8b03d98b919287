/** The `dtypes` schema: an ordered mapping from column name to the pandas
    type the column is coerced to. Its key order is the column order of the
    output table. */
module Schema {
  import opened Wrappers

  datatype ColumnType = Int64 | Str

  /** The column holding the transaction amount, the one integer column. */
  const AmountField: string := "거래금액"

  /** `dtypes`, entry by entry, in declaration order. */
  const DTypes: seq<(string, ColumnType)> := [
    ("거래금액", Int64),
    ("건축년도", Str),
    ("년", Str),
    ("도로명", Str),
    ("도로명건물본번호코드", Str),
    ("도로명건물부번호코드", Str),
    ("도로명시군구코드", Str),
    ("도로명일련번호코드", Str),
    ("도로명지상지하코드", Str),
    ("도로명코드", Str),
    ("법정동", Str),
    ("법정동본번코드", Str),
    ("법정동부번코드", Str),
    ("법정동시군구코드", Str),
    ("법정동읍면동코드", Str),
    ("법정동지번코드", Str),
    ("아파트", Str),
    ("월", Str),
    ("일", Str),
    ("일련번호", Str),
    ("전용면적", Str),
    ("지번", Str),
    ("지역코드", Str),
    ("층", Str)
  ]

  /** `keys()` of an ordered dictionary given as its entries. */
  function Keys(entries: seq<(string, ColumnType)>): seq<string> {
    seq(|entries|, i requires 0 <= i < |entries| => entries[i].0)
  }

  /** `dtypes.keys()`: the column names in order. */
  const Fields: seq<string> := Keys(DTypes)

  predicate DistinctKeys(entries: seq<(string, ColumnType)>) {
    forall i, j :: 0 <= i < j < |entries| ==> entries[i].0 != entries[j].0
  }

  /** `dict.get` on an ordered dictionary given as its entries: the type
      of the first entry with the key, None when no entry has it. */
  function Get(entries: seq<(string, ColumnType)>, key: string): (r: Option<ColumnType>)
    ensures r.None? <==> forall i :: 0 <= i < |entries| ==> entries[i].0 != key
  {
    if entries == [] then None
    else if entries[0].0 == key then Some(entries[0].1)
    else
      var r := Get(entries[1..], key);
      assert forall i :: 0 < i < |entries| ==> entries[i] == entries[1..][i - 1];
      r
  }

  /** With distinct keys, the lookup finds exactly the entry at the key's
      position, and fails exactly for keys that are not present. */
  lemma {:induction false} GetEntry(entries: seq<(string, ColumnType)>, key: string)
    requires DistinctKeys(entries)
    ensures Get(entries, key).None? <==> forall i :: 0 <= i < |entries| ==> entries[i].0 != key
    ensures forall i :: 0 <= i < |entries| && entries[i].0 == key ==> Get(entries, key) == Some(entries[i].1)
  {
    if entries != [] {
      assert DistinctKeys(entries[1..]) by {
        forall i, j | 0 <= i < j < |entries[1..]|
          ensures entries[1..][i].0 != entries[1..][j].0
        {
          assert entries[1..][i] == entries[i + 1] && entries[1..][j] == entries[j + 1];
        }
      }
      GetEntry(entries[1..], key);
      if entries[0].0 != key {
        forall i | 0 <= i < |entries| && entries[i].0 == key
          ensures Get(entries, key) == Some(entries[i].1)
        {
          assert entries[1..][i - 1] == entries[i];
        }
        assert (forall i :: 0 <= i < |entries[1..]| ==> entries[1..][i].0 != key)
          ==> (forall i :: 0 <= i < |entries| ==> entries[i].0 != key) by {
          if forall i :: 0 <= i < |entries[1..]| ==> entries[1..][i].0 != key {
            forall i | 0 <= i < |entries| ensures entries[i].0 != key {
              if i > 0 { assert entries[1..][i - 1] == entries[i]; }
            }
          }
        }
      }
    }
  }

  /** The schema's shape: 24 distinct column names, the amount first. */
  lemma SchemaShape()
    ensures |DTypes| == |Fields| == 24
    ensures DistinctKeys(DTypes)
    ensures Fields[0] == AmountField && DTypes[0].1 == Int64
    ensures forall i :: 1 <= i < |DTypes| ==> DTypes[i].1 == Str
  {
    DistinctFirstHalf();
    DistinctSecondHalf();
    DistinctAcrossHalves();
  }

  // The 276 pairs of names, compared in three groups.

  lemma DistinctFirstHalf()
    ensures forall i, j :: 0 <= i < j < 12 ==> DTypes[i].0 != DTypes[j].0
  {
  }

  lemma DistinctSecondHalf()
    ensures forall i, j :: 12 <= i < j < 24 ==> DTypes[i].0 != DTypes[j].0
  {
  }

  lemma DistinctAcrossHalves()
    ensures forall i, j :: 0 <= i < 12 <= j < 24 ==> DTypes[i].0 != DTypes[j].0
  {
  }

  /** The column names are distinct and include the amount column. */
  lemma FieldsDistinct()
    ensures forall i, j :: 0 <= i < j < |Fields| ==> Fields[i] != Fields[j]
    ensures AmountField in Fields
  {
    SchemaShape();
    assert forall i :: 0 <= i < |Fields| ==> Fields[i] == DTypes[i].0;
    assert Fields[0] == AmountField;
  }

  /** `dtypes.get(col)`: the type a column is coerced to. Only the amount
      column becomes an integer; every other schema column stays a string,
      and a name outside the schema has no type. */
  function TypeOf(name: string): (r: Option<ColumnType>)
    ensures r.Some? <==> name in Fields
    ensures r == Some(Int64) <==> name == AmountField
    ensures r == Some(Str) <==> name in Fields && name != AmountField
  {
    SchemaShape();
    GetEntry(DTypes, name);
    assert forall i :: 0 <= i < |DTypes| ==> DTypes[i].0 == Fields[i];
    Get(DTypes, name)
  }

  /** The schema as a lookup table: every schema column has a type, the
      amount column int64 and every other one a string. */
  lemma SchemaTypes()
    ensures forall c :: c in Fields ==> Get(DTypes, c) == Some(if c == AmountField then Int64 else Str)
  {
    forall c | c in Fields
      ensures Get(DTypes, c) == Some(if c == AmountField then Int64 else Str)
    {
      var t := TypeOf(c);
    }
  }
}
