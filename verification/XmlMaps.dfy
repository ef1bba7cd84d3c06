/** String maps as XML: a token-emitting writer with sorted keys, and a token-driven reader. */
module XmlMaps {
  import opened Wrappers
  import opened MapRange
  import opened Ordering

  datatype Attr = Attr(name: string, value: string)

  /** XML tokens; `OtherToken` stands for comments, instructions and directives. */
  datatype Token =
    | StartElement(name: string, attrs: seq<Attr>)
    | EndElement(name: string)
    | CharData(text: string)
    | OtherToken

  /** The element, attribute and entry names that a codec is instantiated with. */
  datatype Names = Names(start: string, entry: string, key: string, value: string)

  class Encoder {
    var tokens: seq<Token>

    constructor ()
      ensures tokens == []
    {
      tokens := [];
    }

    method EncodeToken(t: Token)
      modifies this
      ensures tokens == old(tokens) + [t]
    {
      tokens := tokens + [t];
    }
  }

  /** A token stream and how much of it has been read; the end of the stream yields no token. */
  class Decoder {
    const stream: seq<Token>
    var pos: nat

    constructor (stream: seq<Token>)
      ensures this.stream == stream && pos == 0
    {
      this.stream := stream;
      pos := 0;
    }

    ghost predicate Valid()
      reads this
    {
      pos <= |stream|
    }

    method NextToken() returns (t: Option<Token>)
      requires Valid()
      modifies this
      ensures Valid()
      ensures t == if old(pos) < |stream| then Some(stream[old(pos)]) else None
      ensures pos == if old(pos) < |stream| then old(pos) + 1 else old(pos)
    {
      if pos == |stream| {
        return None;
      }
      t := Some(stream[pos]);
      pos := pos + 1;
    }
  }

  /** The variable that a decoder stores its result through. */
  class MapCell {
    var entries: map<string, string>

    constructor ()
      ensures entries == map[]
    {
      entries := map[];
    }
  }

  // ---------------------------------------------------------------- Writing

  function EntryTokens(k: string, v: string, names: Names): seq<Token> {
    [StartElement(names.entry, [Attr(names.key, k), Attr(names.value, v)]), EndElement(names.entry)]
  }

  function BodyTokens(keys: seq<string>, c: map<string, string>, names: Names): seq<Token>
    requires forall k :: k in keys ==> k in c
  {
    if keys == [] then []
    else
      var last := keys[|keys| - 1];
      BodyTokens(keys[..|keys| - 1], c, names) + EntryTokens(last, c[last], names)
  }

  ghost function SortedKeys(c: map<string, string>): (keys: seq<string>)
    ensures Lists(keys, c.Keys, StringLe)
    ensures forall k :: k in keys ==> k in c
  {
    StringLeTotal();
    var keys := Sorted(c.Keys, StringLe);
    assert forall k :: k in keys ==> k in Elements(keys);
    keys
  }

  ghost function MapTokens(c: map<string, string>, attrs: seq<Attr>, names: Names): seq<Token> {
    if c == map[] then []
    else [StartElement(names.start, attrs)] + BodyTokens(SortedKeys(c), c, names) + [EndElement(names.start)]
  }

  lemma BodyGrows(before: seq<Token>, keys: seq<string>, i: nat, c: map<string, string>, names: Names)
    requires i < |keys| && forall k :: k in keys ==> k in c
    ensures before + BodyTokens(keys[..i + 1], c, names) ==
            before + BodyTokens(keys[..i], c, names)
            + [EntryTokens(keys[i], c[keys[i]], names)[0]] + [EntryTokens(keys[i], c[keys[i]], names)[1]]
  {
    assert keys[..i + 1][..i] == keys[..i];
  }

  lemma Framed(before: seq<Token>, first: Token, body: seq<Token>, last: Token)
    ensures before + [first] + body + [last] == before + ([first] + body + [last])
  {
  }

  /** The keys of a map, collected in some order and then sorted. */
  method SortKeys(c: map<string, string>) returns (keys: seq<string>)
    ensures keys == SortedKeys(c)
  {
    keys := Collect(c.Keys);
    ghost var collected := keys;
    StringLeTotal();
    keys := Sort(keys, StringLe);
    PermutationIsOrder(keys, collected, c.Keys);
    ListingIsUnique(keys, SortedKeys(c), c.Keys, StringLe);
  }

  /** `marshalMapToXML`: the emitted tokens depend on the map alone, not on its iteration order. */
  method MarshalMapToXML(c: map<string, string>, e: Encoder, attrs: seq<Attr>, names: Names)
    modifies e
    ensures e.tokens == old(e.tokens) + MapTokens(c, attrs, names)
  {
    if |c| == 0 {
      return;
    }
    e.EncodeToken(StartElement(names.start, attrs));
    ghost var begun := e.tokens;
    var keys := SortKeys(c);
    for i := 0 to |keys|
      invariant e.tokens == begun + BodyTokens(keys[..i], c, names)
    {
      var k := keys[i];
      BodyGrows(begun, keys, i, c, names);
      e.EncodeToken(StartElement(names.entry, [Attr(names.key, k), Attr(names.value, c[k])]));
      e.EncodeToken(EndElement(names.entry));
    }
    assert keys[..|keys|] == keys;
    Framed(old(e.tokens), StartElement(names.start, attrs), BodyTokens(keys, c, names), EndElement(names.start));
    e.EncodeToken(EndElement(names.start));
  }

  // ---------------------------------------------------------------- Reading

  /** The value of the last attribute with a given name, or "". */
  function LastAttr(attrs: seq<Attr>, name: string): string {
    if attrs == [] then ""
    else if attrs[|attrs| - 1].name == name then attrs[|attrs| - 1].value
    else LastAttr(attrs[..|attrs| - 1], name)
  }

  function EntryKey(attrs: seq<Attr>, names: Names): string {
    LastAttr(attrs, names.key)
  }

  function EntryValue(attrs: seq<Attr>, names: Names): string {
    if names.key == names.value then "" else LastAttr(attrs, names.value)
  }

  /** A token that the decoder reads past. */
  predicate Passes(t: Token, names: Names) {
    match t
    case StartElement(name, attrs) => name == names.entry && EntryKey(attrs, names) != ""
    case EndElement(name) => name != names.start
    case _ => true
  }

  /** The decoder stops successfully at `end`, the first end element with the start's name. */
  predicate StopsAt(stream: seq<Token>, begin: nat, end: nat, names: Names) {
    begin <= end < |stream| && stream[end] == EndElement(names.start) &&
    forall q :: begin <= q < end ==> Passes(stream[q], names)
  }

  /** The entries among some tokens, later ones overwriting earlier ones. */
  function Entries(tokens: seq<Token>, names: Names): map<string, string> {
    if tokens == [] then map[]
    else WithToken(Entries(tokens[..|tokens| - 1], names), tokens[|tokens| - 1], names)
  }

  function WithToken(before: map<string, string>, t: Token, names: Names): map<string, string> {
    match t
    case StartElement(_, attrs) => before[EntryKey(attrs, names) := EntryValue(attrs, names)]
    case _ => before
  }

  lemma EntriesGrow(stream: seq<Token>, begin: nat, at: nat, names: Names)
    requires begin <= at < |stream|
    ensures Entries(stream[begin..at + 1], names) == WithToken(Entries(stream[begin..at], names), stream[at], names)
  {
    var tokens := stream[begin..at + 1];
    assert tokens[..|tokens| - 1] == stream[begin..at];
  }

  /** What `Entries` means: a key is there if some entry has it, with the value of the last such entry. */
  lemma {:induction false} EntriesExactly(tokens: seq<Token>, names: Names, k: string)
    ensures k in Entries(tokens, names) <==>
            exists q :: 0 <= q < |tokens| && tokens[q].StartElement? && EntryKey(tokens[q].attrs, names) == k
    ensures forall q :: 0 <= q < |tokens| && tokens[q].StartElement? && EntryKey(tokens[q].attrs, names) == k &&
                        (forall r :: q < r < |tokens| && tokens[r].StartElement? ==>
                                    EntryKey(tokens[r].attrs, names) != k)
                        ==> k in Entries(tokens, names) &&
                            Entries(tokens, names)[k] == EntryValue(tokens[q].attrs, names)
  {
    if tokens != [] {
      var n := |tokens| - 1;
      EntriesExactly(tokens[..n], names, k);
      assert forall q :: 0 <= q < n ==> tokens[..n][q] == tokens[q];
    }
  }

  lemma StopIsUnique(stream: seq<Token>, begin: nat, p: nat, q: nat, names: Names)
    requires StopsAt(stream, begin, p, names) && StopsAt(stream, begin, q, names)
    ensures p == q
  {
  }

  /** The loop over the attributes of one entry. */
  method ReadAttrs(attrs: seq<Attr>, names: Names) returns (k: string, v: string)
    ensures k == EntryKey(attrs, names) && v == EntryValue(attrs, names)
  {
    k, v := "", "";
    for i := 0 to |attrs|
      invariant k == EntryKey(attrs[..i], names) && v == EntryValue(attrs[..i], names)
    {
      assert attrs[..i + 1][..i] == attrs[..i];
      if attrs[i].name == names.key {
        k := attrs[i].value;
      } else if attrs[i].name == names.value {
        v := attrs[i].value;
      }
    }
    assert attrs[..|attrs|] == attrs;
  }

  /** `unmarshalMapFromXML`: it succeeds exactly when an end element with the start's name comes
      before anything unexpected and before the end of the stream; only then is the target set. */
  method UnmarshalMapFromXML(c: MapCell, d: Decoder, names: Names) returns (r: Result<()>)
    requires d.Valid()
    modifies c, d
    ensures d.Valid()
    ensures r.Success? <==> exists p :: StopsAt(d.stream, old(d.pos), p, names)
    ensures r.Success? ==> d.pos > old(d.pos) && StopsAt(d.stream, old(d.pos), d.pos - 1, names)
    ensures r.Success? ==> c.entries == Entries(d.stream[old(d.pos)..d.pos - 1], names)
    ensures r.Failure? ==> c.entries == old(c.entries)
  {
    var result: map<string, string> := map[];
    ghost var begin := d.pos;
    while true
      invariant d.Valid() && begin <= d.pos
      invariant forall q :: begin <= q < d.pos ==> Passes(d.stream[q], names)
      invariant result == Entries(d.stream[begin..d.pos], names)
      invariant c.entries == old(c.entries)
      decreases |d.stream| - d.pos
    {
      ghost var at := d.pos;
      var token := d.NextToken();
      if token.None? {
        return Failure;
      }
      EntriesGrow(d.stream, begin, at, names);
      match token.value {
        case CharData(_) =>
        case OtherToken =>
        case StartElement(name, attrs) =>
          if name != names.entry {
            NoStopPast(d.stream, begin, at, names);
            return Failure;
          }
          var k, v := ReadAttrs(attrs, names);
          if k == "" {
            NoStopPast(d.stream, begin, at, names);
            return Failure;
          }
          result := result[k := v];
        case EndElement(name) =>
          if name == names.start {
            c.entries := result;
            assert StopsAt(d.stream, begin, at, names);
            return Success(());
          }
      }
    }
  }

  lemma NoStopPast(stream: seq<Token>, begin: nat, at: nat, names: Names)
    requires begin <= at < |stream| && !Passes(stream[at], names) && stream[at] != EndElement(names.start)
    requires forall q :: begin <= q < at ==> Passes(stream[q], names)
    ensures forall p :: !StopsAt(stream, begin, p, names)
  {
  }

  // ---------------------------------------------------------------- Round trip

  lemma {:induction false} BodyShape(keys: seq<string>, c: map<string, string>, names: Names)
    requires forall k :: k in keys ==> k in c
    ensures |BodyTokens(keys, c, names)| == 2 * |keys|
    ensures forall i :: 0 <= i < |keys| ==>
                          BodyTokens(keys, c, names)[2 * i] == EntryTokens(keys[i], c[keys[i]], names)[0] &&
                          BodyTokens(keys, c, names)[2 * i + 1] == EndElement(names.entry)
  {
    if keys != [] {
      BodyShape(keys[..|keys| - 1], c, names);
    }
  }

  lemma EntryAdds(before: seq<Token>, k: string, v: string, names: Names)
    requires names.key != names.value
    ensures Entries(before + EntryTokens(k, v, names), names) == Entries(before, names)[k := v]
  {
    var entry := EntryTokens(k, v, names);
    var all := before + entry;
    assert all[..|all| - 1] == before + [entry[0]];
    assert (before + [entry[0]])[..|before|] == before;
    AttrPair(k, v, names);
  }

  lemma {:induction false} BodyEntries(keys: seq<string>, c: map<string, string>, names: Names)
    requires forall k :: k in keys ==> k in c
    requires names.key != names.value
    ensures Entries(BodyTokens(keys, c, names), names) == map k | k in keys :: c[k]
  {
    if keys != [] {
      var n := |keys| - 1;
      BodyEntries(keys[..n], c, names);
      EntryAdds(BodyTokens(keys[..n], c, names), keys[n], c[keys[n]], names);
      assert keys == keys[..n] + [keys[n]];
    }
  }

  lemma AttrPair(k: string, v: string, names: Names)
    ensures var attrs := [Attr(names.key, k), Attr(names.value, v)];
            EntryKey(attrs, names) == (if names.key == names.value then v else k) &&
            EntryValue(attrs, names) == (if names.key == names.value then "" else v)
  {
    var attrs := [Attr(names.key, k), Attr(names.value, v)];
    assert attrs[..1] == [Attr(names.key, k)];
    assert LastAttr(attrs[..1], names.key) == k;
  }

  /** Names under which a written map can be told apart from its surroundings. */
  predicate Distinguishable(names: Names) {
    names.key != names.value && names.entry != names.start
  }

  lemma BodyPasses(keys: seq<string>, c: map<string, string>, names: Names, q: nat)
    requires (forall k :: k in keys ==> k in c) && q < 2 * |keys|
    requires Distinguishable(names) && "" !in keys
    ensures q < |BodyTokens(keys, c, names)| && Passes(BodyTokens(keys, c, names)[q], names)
  {
    var i := q / 2;
    BodyShape(keys, c, names);
    AttrPair(keys[i], c[keys[i]], names);
    assert keys[i] in keys;
    assert q == 2 * i || q == 2 * i + 1;
  }

  /** No token of a written body is the end element of the whole. */
  lemma BodyDoesNotEnd(keys: seq<string>, c: map<string, string>, names: Names, q: nat)
    requires (forall k :: k in keys ==> k in c) && q < |BodyTokens(keys, c, names)|
    requires names.entry != names.start
    ensures BodyTokens(keys, c, names)[q] != EndElement(names.start)
  {
    BodyShape(keys, c, names);
    var i := q / 2;
    assert q == 2 * i || q == 2 * i + 1;
  }

  lemma SortedKeysAreKeys(c: map<string, string>)
    ensures forall k :: k in SortedKeys(c) <==> k in c
    ensures (map k | k in SortedKeys(c) :: c[k]) == c
  {
    assert forall k :: k in SortedKeys(c) <==> k in Elements(SortedKeys(c));
  }

  /** The tokens of a written map that follow its start element. */
  ghost function Body(c: map<string, string>, names: Names): seq<Token> {
    BodyTokens(SortedKeys(c), c, names)
  }

  /** A decoder positioned after the start element, with `suffix` following the map, returns the map
      and leaves exactly `suffix` unread. */
  ghost predicate ReadsBack(c: map<string, string>, suffix: seq<Token>, names: Names) {
    var stream := Body(c, names) + ([EndElement(names.start)] + suffix);
    StopsAt(stream, 0, |Body(c, names)|, names) && Entries(stream[..|Body(c, names)|], names) == c
  }

  lemma RoundTripWorks(c: map<string, string>, suffix: seq<Token>, names: Names)
    requires Distinguishable(names) && "" !in c
    ensures ReadsBack(c, suffix, names)
  {
    var keys, body := SortedKeys(c), Body(c, names);
    var stream := body + ([EndElement(names.start)] + suffix);
    SortedKeysAreKeys(c);
    BodyShape(keys, c, names);
    BodyEntries(keys, c, names);
    forall q | 0 <= q < |body| ensures Passes(stream[q], names) {
      BodyPasses(keys, c, names, q);
    }
    assert stream[..|body|] == body;
  }

  lemma KeyPassed(c: map<string, string>, tail: seq<Token>, names: Names, k: string)
    requires k in c && forall q :: 0 <= q < |Body(c, names)| ==> Passes((Body(c, names) + tail)[q], names)
    ensures (if names.key == names.value then c[k] else k) != "" && names.entry != names.start
  {
    var keys, body := SortedKeys(c), Body(c, names);
    BodyShape(keys, c, names);
    assert k in Elements(keys);
    var i :| 0 <= i < |keys| && keys[i] == k;
    assert (body + tail)[2 * i] == body[2 * i] && (body + tail)[2 * i + 1] == body[2 * i + 1];
    AttrPair(k, c[k], names);
  }

  lemma RoundTripFails(c: map<string, string>, suffix: seq<Token>, names: Names)
    requires c != map[] && ReadsBack(c, suffix, names)
    ensures Distinguishable(names) && "" !in c
  {
    forall k | k in c ensures (if names.key == names.value then c[k] else k) != "" && names.entry != names.start {
      KeyPassed(c, [EndElement(names.start)] + suffix, names, k);
    }
    var some :| some in c;
    if names.key == names.value {
      var stream := Body(c, names) + ([EndElement(names.start)] + suffix);
      NoValues(stream[..|Body(c, names)|], names, some);
    }
  }

  lemma {:induction false} NoValues(tokens: seq<Token>, names: Names, k: string)
    requires names.key == names.value && k in Entries(tokens, names)
    ensures Entries(tokens, names)[k] == ""
  {
    var n := |tokens| - 1;
    if !(tokens[n].StartElement? && EntryKey(tokens[n].attrs, names) == k) {
      NoValues(tokens[..n], names, k);
    }
  }

  /** Round trip with framing: it works for a non-empty map if and only if the names are
      distinguishable and no key is empty. */
  lemma MapRoundTripExactly(c: map<string, string>, suffix: seq<Token>, names: Names)
    requires c != map[]
    ensures ReadsBack(c, suffix, names) <==> Distinguishable(names) && "" !in c
  {
    if Distinguishable(names) && "" !in c {
      RoundTripWorks(c, suffix, names);
    }
    if ReadsBack(c, suffix, names) {
      RoundTripFails(c, suffix, names);
    }
  }

  // The names that plugin configurations use inside their own element.
  function PluginNames(start: string): Names {
    Names(start, "entry", "key", "value")
  }

  /** `JobPluginConfig.MarshalXML`, then `JobPluginConfig.UnmarshalXML` on the same element inside a
      larger stream. */
  method RunPluginConfigCodec(c: map<string, string>, attrs: seq<Attr>, suffix: seq<Token>, start: string)
      returns (r: Result<map<string, string>>, ghost unread: seq<Token>)
    requires c != map[]
    ensures r == Success(c) && unread == suffix <==> start != "entry" && "" !in c
  {
    var names := PluginNames(start);
    var e := new Encoder();
    MarshalMapToXML(c, e, attrs, names);
    var d := new Decoder(e.tokens[1..] + suffix);
    var cell := new MapCell();
    ghost var body := Body(c, names);
    assert d.stream == body + ([EndElement(start)] + suffix);
    MapRoundTripExactly(c, suffix, names);
    assert Distinguishable(names) <==> start != "entry";
    var done := UnmarshalMapFromXML(cell, d, names);
    unread := d.stream[d.pos..];
    if done.Failure? {
      return Failure, unread;
    }
    if ReadsBack(c, suffix, names) {
      StopIsUnique(d.stream, 0, |body|, d.pos - 1, names);
    }
    return Success(cell.entries), unread;
  }

  // ---------------------------------------------------------------- Shape of the output

  /** Reading tokens against a stack of open elements. */
  function Nest(tokens: seq<Token>, open: seq<string>): Option<seq<string>> {
    if tokens == [] then Some(open)
    else
      match tokens[0]
      case StartElement(name, _) => Nest(tokens[1..], open + [name])
      case EndElement(name) =>
        if open != [] && open[|open| - 1] == name then Nest(tokens[1..], open[..|open| - 1]) else None
      case _ => Nest(tokens[1..], open)
  }

  lemma {:induction false} NestAppend(a: seq<Token>, b: seq<Token>, open: seq<string>)
    ensures Nest(a + b, open) == match Nest(a, open) { case None => None case Some(rest) => Nest(b, rest) }
  {
    if a == [] {
      assert a + b == b;
    } else {
      assert (a + b)[1..] == a[1..] + b;
      match a[0]
      case StartElement(name, _) => NestAppend(a[1..], b, open + [name]);
      case EndElement(name) =>
        if open != [] && open[|open| - 1] == name {
          NestAppend(a[1..], b, open[..|open| - 1]);
        }
      case _ => NestAppend(a[1..], b, open);
    }
  }

  lemma {:induction false} BodyNests(keys: seq<string>, c: map<string, string>, names: Names, open: seq<string>)
    requires forall k :: k in keys ==> k in c
    ensures Nest(BodyTokens(keys, c, names), open) == Some(open)
  {
    if keys != [] {
      var n := |keys| - 1;
      var entry := EntryTokens(keys[n], c[keys[n]], names);
      BodyNests(keys[..n], c, names, open);
      NestAppend(BodyTokens(keys[..n], c, names), entry, open);
      assert (open + [names.entry])[..|open|] == open;
      assert entry[1..] == [EndElement(names.entry)];
      assert Nest(entry[1..], open + [names.entry]) == Nest([], open);
    }
  }

  /** The emitted tokens: balanced, two per entry and two around them, with strictly ascending keys. */
  lemma MapTokensShape(c: map<string, string>, attrs: seq<Attr>, names: Names)
    requires c != map[]
    ensures var tokens, keys := MapTokens(c, attrs, names), SortedKeys(c);
            && Nest(tokens, []) == Some([])
            && |tokens| == 2 * |c| + 2
            && tokens[0] == StartElement(names.start, attrs) && tokens[|tokens| - 1] == EndElement(names.start)
            && |keys| == |c|
            && (forall i :: 0 <= i < |keys| ==>
                              tokens[2 * i + 1] == StartElement(names.entry,
                                                [Attr(names.key, keys[i]), Attr(names.value, c[keys[i]])]))
            && (forall i, j :: 0 <= i < j < |keys| ==> StringLe(keys[i], keys[j]) && keys[i] != keys[j])
  {
    var tokens, keys := MapTokens(c, attrs, names), SortedKeys(c);
    var body := BodyTokens(keys, c, names);
    BodyShape(keys, c, names);
    OrderLength(keys, c.Keys);
    assert |c.Keys| == |c|;
    BodyNests(keys, c, names, [names.start]);
    NestAppend(body, [EndElement(names.start)], [names.start]);
    assert tokens[1..] == body + [EndElement(names.start)];
    assert [] + [names.start] == [names.start] && [names.start][..0] == [];
    assert [EndElement(names.start)][1..] == [];
  }

  // ---------------------------------------------------------------- What the decoder accepts

  /** The value of an attribute list is that of the last attribute with the name. */
  lemma {:induction false} LastAttrIsLast(attrs: seq<Attr>, name: string, i: nat)
    requires i < |attrs| && attrs[i].name == name && forall j :: i < j < |attrs| ==> attrs[j].name != name
    ensures LastAttr(attrs, name) == attrs[i].value
  {
    if i < |attrs| - 1 {
      LastAttrIsLast(attrs[..|attrs| - 1], name, i);
    }
  }

  /** Without such an attribute it is empty. */
  lemma {:induction false} LastAttrIsNone(attrs: seq<Attr>, name: string)
    requires forall i :: 0 <= i < |attrs| ==> attrs[i].name != name
    ensures LastAttr(attrs, name) == ""
  {
    if attrs != [] {
      LastAttrIsNone(attrs[..|attrs| - 1], name);
    }
  }

  /** Decoding stops at the first end element with the start's name, unless a start element before it
      has another name than an entry or no key. Nothing else stands in its way. */
  lemma StopsAtExactly(stream: seq<Token>, begin: nat, end: nat, names: Names)
    ensures StopsAt(stream, begin, end, names) <==>
            && begin <= end < |stream| && stream[end] == EndElement(names.start)
            && (forall q :: begin <= q < end && stream[q].EndElement? ==> stream[q].name != names.start)
            && (forall q :: begin <= q < end && stream[q].StartElement? ==>
                              stream[q].name == names.entry && LastAttr(stream[q].attrs, names.key) != "")
  {
  }

  /** The tags among some tokens, without text and other tokens. */
  function Tags(tokens: seq<Token>): seq<Token> {
    if tokens == [] then []
    else
      var n := |tokens| - 1;
      Tags(tokens[..n]) + if tokens[n].StartElement? || tokens[n].EndElement? then [tokens[n]] else []
  }

  lemma {:induction false} TagsAppend(a: seq<Token>, b: seq<Token>)
    ensures Tags(a + b) == Tags(a) + Tags(b)
  {
    if b == [] {
      assert a + b == a;
    } else {
      var n := |b| - 1;
      TagsAppend(a, b[..n]);
      assert (a + b)[..|a + b| - 1] == a + b[..n];
    }
  }

  lemma {:induction false} TagsEntries(tokens: seq<Token>, names: Names)
    ensures Entries(Tags(tokens), names) == Entries(tokens, names)
  {
    if tokens != [] {
      var n := |tokens| - 1;
      TagsEntries(tokens[..n], names);
      var tags := Tags(tokens[..n]);
      assert (tags + [tokens[n]])[..|tags|] == tags && tags + [] == tags;
    }
  }

  lemma {:induction false} TagsAreThere(tokens: seq<Token>, t: Token)
    ensures t in Tags(tokens) <==> t in tokens && (t.StartElement? || t.EndElement?)
  {
    if tokens != [] {
      var n := |tokens| - 1;
      TagsAreThere(tokens[..n], t);
      assert tokens == tokens[..n] + [tokens[n]];
    }
  }

  /** The tag at some place among the tags, found among all tokens. */
  lemma {:induction false} TagAt(stream: seq<Token>, place: nat) returns (at: nat)
    requires place < |Tags(stream)|
    ensures at < |stream| && |Tags(stream[..at])| == place && stream[at] == Tags(stream)[place]
    ensures stream[at].StartElement? || stream[at].EndElement?
  {
    var n := |stream| - 1;
    if place < |Tags(stream[..n])| {
      at := TagAt(stream[..n], place);
      assert stream[..n][..at] == stream[..at];
    } else {
      at := n;
    }
  }

  /** A stream begins with entries that decode to `m`, up to the end of the map. */
  ghost predicate DecodesTo(stream: seq<Token>, m: map<string, string>, names: Names) {
    exists end: nat :: StopsAt(stream, 0, end, names) && Entries(stream[..end], names) == m
  }

  lemma TagsSplit(stream: seq<Token>, end: nat)
    requires end < |stream| && (stream[end].StartElement? || stream[end].EndElement?)
    ensures var front, tags := Tags(stream[..end]), Tags(stream);
            |front| < |tags| && tags[..|front|] == front && tags[|front|] == stream[end]
  {
    var one, rest := [stream[end]], stream[end + 1..];
    assert stream == stream[..end] + one + rest;
    TagsAppend(stream[..end] + one, rest);
    TagsAppend(stream[..end], one);
    assert one[..0] == [];
    assert Tags(one) == one;
  }

  lemma PassAmongTags(tokens: seq<Token>, names: Names)
    ensures (forall t :: t in tokens ==> Passes(t, names)) <==> forall t :: t in Tags(tokens) ==> Passes(t, names)
  {
    forall t ensures t in Tags(tokens) <==> t in tokens && (t.StartElement? || t.EndElement?) {
      TagsAreThere(tokens, t);
    }
  }

  lemma StopsByMembers(stream: seq<Token>, end: nat, names: Names)
    ensures StopsAt(stream, 0, end, names) <==>
            end < |stream| && stream[end] == EndElement(names.start) &&
            forall t :: t in stream[..end] ==> Passes(t, names)
  {
    if end < |stream| {
      assert forall q :: 0 <= q < end ==> stream[q] == stream[..end][q];
    }
  }

  lemma StopAmongTags(stream: seq<Token>, end: nat, names: Names)
    requires end < |stream| && (stream[end].StartElement? || stream[end].EndElement?)
    ensures StopsAt(Tags(stream), 0, |Tags(stream[..end])|, names) <==> StopsAt(stream, 0, end, names)
  {
    TagsSplit(stream, end);
    PassAmongTags(stream[..end], names);
    StopsByMembers(stream, end, names);
    StopsByMembers(Tags(stream), |Tags(stream[..end])|, names);
  }

  /** Text and other tokens do not matter: wherever they stand, the map decodes, and to the same
      entries, exactly as it does without them. */
  lemma OnlyTagsMatter(stream: seq<Token>, m: map<string, string>, names: Names)
    ensures DecodesTo(stream, m, names) <==> DecodesTo(Tags(stream), m, names)
  {
    if end: nat :| StopsAt(stream, 0, end, names) && Entries(stream[..end], names) == m {
      TagsSplit(stream, end);
      StopAmongTags(stream, end, names);
      TagsEntries(stream[..end], names);
      assert StopsAt(Tags(stream), 0, |Tags(stream[..end])|, names);
    }
    if place: nat :| StopsAt(Tags(stream), 0, place, names) && Entries(Tags(stream)[..place], names) == m {
      var end := TagAt(stream, place);
      TagsSplit(stream, end);
      StopAmongTags(stream, end, names);
      TagsEntries(stream[..end], names);
      assert StopsAt(stream, 0, end, names);
    }
  }

  /** What an entry of a plugin configuration looks like, and what it is read as, in either order of its
      attributes. */
  lemma PluginEntry(c: map<string, string>, k: string, v: string, start: string)
    ensures EntryTokens(k, v, PluginNames(start)) ==
            [StartElement("entry", [Attr("key", k), Attr("value", v)]), EndElement("entry")]
    ensures WithToken(c, StartElement("entry", [Attr("key", k), Attr("value", v)]), PluginNames(start)) == c[k := v]
    ensures WithToken(c, StartElement("entry", [Attr("value", v), Attr("key", k)]), PluginNames(start)) == c[k := v]
  {
    var there, back := [Attr("key", k), Attr("value", v)], [Attr("value", v), Attr("key", k)];
    assert |"key"| != |"value"|;
    assert there[..1] == [Attr("key", k)] && back[..1] == [Attr("value", v)];
    assert LastAttr(there[..1], "key") == k && LastAttr(back[..1], "value") == v;
  }
}
