/** The attribute codec shared by notification emails, notification URLs and option value choices. */
module CommaLists {
  import opened Wrappers
  import opened GoStrings

  /** `MarshalXMLAttr`: the empty list is written as no attribute. */
  function MarshalAttr(values: seq<string>): Option<string> {
    if |values| > 0 then Some(Join(values, ',')) else None
  }

  /** `UnmarshalXMLAttr`, for the value of an attribute that is present. */
  function UnmarshalAttr(value: string): seq<string> {
    Split(value, ',')
  }

  /** The list that a field has after decoding: an absent attribute leaves it empty. */
  function DecodeField(attr: Option<string>): seq<string> {
    match attr
    case None => []
    case Some(value) => UnmarshalAttr(value)
  }

  ghost predicate CommaFree(values: seq<string>) {
    Lacks(values, ',')
  }

  /** Every attribute text survives decoding and encoding. */
  lemma AttrTextRoundTrip(value: string)
    ensures MarshalAttr(UnmarshalAttr(value)) == Some(value)
  {
    JoinSplit(value, ',');
  }

  /** A list survives encoding and decoding exactly when no item contains a comma; that includes the
      empty list and the list of one empty string. */
  lemma ListRoundTripExactly(values: seq<string>)
    ensures DecodeField(MarshalAttr(values)) == values <==> CommaFree(values)
  {
    if |values| > 0 {
      SplitJoinExactly(values, ',');
    }
  }

  /** No two comma-free lists are written alike. */
  lemma EncodingIsInjective(a: seq<string>, b: seq<string>)
    requires CommaFree(a) && CommaFree(b) && MarshalAttr(a) == MarshalAttr(b)
    ensures a == b
  {
    ListRoundTripExactly(a);
    ListRoundTripExactly(b);
  }

  /** The text of a list: its items with commas between them. */
  lemma {:induction false} EncodedText(a: seq<string>, b: seq<string>)
    requires a != [] && b != []
    ensures MarshalAttr(a + b) == Some(MarshalAttr(a).value + "," + MarshalAttr(b).value)
  {
    assert (a + b)[0] == a[0];
    assert [','] == ",";
    if |a| == 1 {
      assert (a + b)[1..] == b;
    } else {
      EncodedText(a[1..], b);
      assert (a + b)[1..] == a[1..] + b;
      var rest, last := Join(a[1..], ','), Join(b, ',');
      assert Join(a + b, ',') == a[0] + "," + (rest + "," + last);
      assert Join(a, ',') == a[0] + "," + rest;
      assert a[0] + "," + (rest + "," + last) == a[0] + "," + rest + "," + last;
    }
  }

  lemma EncodedItem(item: string)
    ensures MarshalAttr([item]) == Some(item) && MarshalAttr([]) == None
  {
  }

  /** The list of a text: what stands between its commas. */
  lemma DecodedText(a: string, b: string)
    ensures UnmarshalAttr(a + "," + b) == UnmarshalAttr(a) + UnmarshalAttr(b)
    ensures ',' !in a ==> UnmarshalAttr(a) == [a]
  {
    SplitAppend(a, b, ',');
    assert a + [','] + b == a + "," + b;
    if ',' !in a {
      SplitWithoutSeparator(a, ',');
    }
  }
}
