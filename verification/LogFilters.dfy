/** Log filter configurations as XML: one child element per entry, named after its key. */
module LogFilters {
  import opened Wrappers
  import opened MapRange
  import opened XmlMaps

  // The Go type that encodes one entry; an entry without a name takes this one.
  const ENTRY_TYPE_NAME := "xmlJobLogFilterConfigEntry"

  function ElementName(key: string): string {
    if key == "" then ENTRY_TYPE_NAME else key
  }

  // ---------------------------------------------------------------- Writing

  /** An element with nothing but text in it; empty text is no token. */
  function ElementTokens(name: string, text: string): seq<Token> {
    [StartElement(name, [])] + (if text == "" then [] else [CharData(text)]) + [EndElement(name)]
  }

  /** The elements written for some keys, in that order. */
  function ChildTokens(order: seq<string>, config: map<string, string>): seq<Token>
    requires forall k :: k in order ==> k in config
  {
    if order == [] then []
    else
      var last := order[|order| - 1];
      ChildTokens(order[..|order| - 1], config) + ElementTokens(ElementName(last), config[last])
  }

  function ConfigTokens(start: string, attrs: seq<Attr>, order: seq<string>, config: map<string, string>): seq<Token>
    requires forall k :: k in order ==> k in config
  {
    if config == map[] then []
    else [StartElement(start, attrs)] + ChildTokens(order, config) + [EndElement(start)]
  }

  /** The standard encoder on one entry. */
  method EncodeEntry(e: Encoder, name: string, text: string)
    modifies e
    ensures e.tokens == old(e.tokens) + ElementTokens(name, text)
  {
    e.EncodeToken(StartElement(name, []));
    if text != "" {
      e.EncodeToken(CharData(text));
    }
    e.EncodeToken(EndElement(name));
  }

  lemma ChildrenGrow(begun: seq<Token>, order: seq<string>, k: string, config: map<string, string>)
    requires k in config && forall j :: j in order ==> j in config
    ensures begun + ChildTokens(order, config) + ElementTokens(ElementName(k), config[k]) ==
            begun + ChildTokens(order + [k], config)
  {
    assert (order + [k])[..|order|] == order;
  }

  /** `JobLogFilterConfig.MarshalXML`: one child per entry, in the order of the range; an empty map
      writes no element at all. */
  method MarshalLogFilterConfig(config: map<string, string>, e: Encoder, start: string, attrs: seq<Attr>)
      returns (ghost order: seq<string>)
    modifies e
    ensures IsOrder(order, config.Keys) && forall k :: k in order ==> k in config
    ensures e.tokens == old(e.tokens) + ConfigTokens(start, attrs, order, config)
  {
    order := [];
    if |config| == 0 {
      return;
    }
    e.EncodeToken(StartElement(start, attrs));
    ghost var begun := e.tokens;
    var todo := config.Keys;
    while todo != {}
      invariant todo <= config.Keys
      invariant IsOrder(order, config.Keys - todo) && forall k :: k in order ==> k in config
      invariant e.tokens == begun + ChildTokens(order, config)
    {
      var key :| key in todo;
      VisitNext(order, config.Keys, todo, key);
      ChildrenGrow(begun, order, key, config);
      todo := todo - {key};
      order := order + [key];
      EncodeEntry(e, ElementName(key), config[key]);
    }
    Framed(old(e.tokens), StartElement(start, attrs), ChildTokens(order, config), EndElement(start));
    e.EncodeToken(EndElement(start));
  }

  // ---------------------------------------------------------------- Reading

  /** What has been read of an element's content: the entries of the children that are complete, the
      elements that are open, and the text that stands directly in the current child. */
  datatype Scan = Scan(entries: map<string, string>, open: seq<string>, text: string)

  function ScanToken(s: Scan, t: Token): Option<Scan> {
    match t
    case StartElement(name, _) => Some(s.(open := s.open + [name]))
    case CharData(text) => Some(if |s.open| == 1 then s.(text := s.text + text) else s)
    case OtherToken => Some(s)
    case EndElement(name) =>
      if s.open == [] || s.open[|s.open| - 1] != name then None
      else if |s.open| == 1 then Some(Scan(s.entries[name := s.text], [], ""))
      else Some(s.(open := s.open[..|s.open| - 1]))
  }

  /** The state after some tokens, unless an end element among them closes nothing. */
  function ScanTokens(tokens: seq<Token>): Option<Scan> {
    if tokens == [] then Some(Scan(map[], [], ""))
    else
      match ScanTokens(tokens[..|tokens| - 1])
      case None => None
      case Some(s) => ScanToken(s, tokens[|tokens| - 1])
  }

  /** The content from `begin` up to `at` leads to the state `s`. */
  ghost predicate Scanned(stream: seq<Token>, begin: nat, at: nat, s: Scan) {
    begin <= at <= |stream| && ScanTokens(stream[begin..at]) == Some(s)
  }

  /** The element that begins before `begin` is closed at `end`, after balanced content. */
  ghost predicate ClosesAt(stream: seq<Token>, begin: nat, end: nat, start: string) {
    begin <= end < |stream| && stream[end] == EndElement(start) && Nest(stream[begin..end], []) == Some([])
  }

  /** Scanning keeps the very stack of open elements that balance is defined by. */
  lemma {:induction false} ScanNests(tokens: seq<Token>)
    ensures match ScanTokens(tokens) { case None => Nest(tokens, []).None?
                                       case Some(s) => Nest(tokens, []) == Some(s.open) }
  {
    if tokens != [] {
      var n := |tokens| - 1;
      ScanNests(tokens[..n]);
      NestAppend(tokens[..n], [tokens[n]], []);
      assert tokens == tokens[..n] + [tokens[n]];
      assert [tokens[n]][1..] == [];
    }
  }

  lemma ScanGrows(stream: seq<Token>, begin: nat, at: nat)
    requires begin <= at < |stream|
    ensures ScanTokens(stream[begin..at + 1]) ==
            match ScanTokens(stream[begin..at]) { case None => None case Some(s) => ScanToken(s, stream[at]) }
  {
    var tokens := stream[begin..at + 1];
    assert tokens[..|tokens| - 1] == stream[begin..at];
  }

  lemma ScannedNext(stream: seq<Token>, begin: nat, at: nat, s: Scan)
    requires Scanned(stream, begin, at, s) && at < |stream| && ScanToken(s, stream[at]).Some?
    ensures Scanned(stream, begin, at + 1, ScanToken(s, stream[at]).value)
  {
    ScanGrows(stream, begin, at);
  }

  /** With nothing open, an end element with the right name closes the surrounding element. */
  lemma ScannedCloses(stream: seq<Token>, begin: nat, at: nat, s: Scan, start: string)
    requires Scanned(stream, begin, at, s) && s.open == [] && at < |stream| && stream[at] == EndElement(start)
    ensures ClosesAt(stream, begin, at, start)
  {
    ScanNests(stream[begin..at]);
  }

  lemma {:induction false} ScanPrefix(stream: seq<Token>, begin: nat, p: nat, q: nat)
    requires begin <= p <= q <= |stream| && ScanTokens(stream[begin..q]).Some?
    ensures ScanTokens(stream[begin..p]).Some?
    decreases q - p
  {
    if p < q {
      ScanGrows(stream, begin, q - 1);
      ScanPrefix(stream, begin, p, q - 1);
    }
  }

  /** No end of the element can come before a position up to which the content scans. */
  lemma NoCloseBefore(stream: seq<Token>, begin: nat, p: nat, q: nat, start: string)
    requires begin <= p < q <= |stream| && ScanTokens(stream[begin..q]).Some?
    ensures !ClosesAt(stream, begin, p, start)
  {
    ScanPrefix(stream, begin, p + 1, q);
    ScanGrows(stream, begin, p);
    ScanNests(stream[begin..p]);
  }

  lemma CloseIsUnique(stream: seq<Token>, begin: nat, p: nat, q: nat, start: string)
    requires ClosesAt(stream, begin, p, start) && ClosesAt(stream, begin, q, start)
    ensures p == q
  {
    ScanNests(stream[begin..p]);
    ScanNests(stream[begin..q]);
    if p < q {
      NoCloseBefore(stream, begin, p, q, start);
    } else if q < p {
      NoCloseBefore(stream, begin, q, p, start);
    }
  }

  /** When the stream ends inside the element, or an end element closes neither a child nor the
      element, the element is closed nowhere. */
  lemma NoCloseEver(stream: seq<Token>, begin: nat, at: nat, s: Scan, start: string)
    requires Scanned(stream, begin, at, s)
    requires at < |stream| ==> ScanToken(s, stream[at]).None? && (s.open == [] ==> stream[at] != EndElement(start))
    ensures forall p: nat :: !ClosesAt(stream, begin, p, start)
    ensures forall p: nat, t :: p > at ==> !Scanned(stream, begin, p, t)
  {
    forall p: nat, t | p > at ensures !Scanned(stream, begin, p, t) {
      if at < p <= |stream| && ScanTokens(stream[begin..p]).Some? {
        ScanGrows(stream, begin, at);
        ScanPrefix(stream, begin, at + 1, p);
      }
    }
    forall p: nat | ClosesAt(stream, begin, p, start) ensures false {
      ScanNests(stream[begin..p]);
      assert Scanned(stream, begin, p, ScanTokens(stream[begin..p]).value);
      if p < at {
        NoCloseBefore(stream, begin, p, at, start);
      }
    }
  }

  /** The entries of exactly the children that are complete anywhere in the stream: those up to `q`,
      after which no child is completed any more. */
  ghost predicate AllComplete(stream: seq<Token>, begin: nat, q: nat, entries: map<string, string>) {
    && Scanned(stream, begin, q, Scan(entries, [], ""))
    && forall p: nat, t :: p >= q && Scanned(stream, begin, p, t) && t.open == [] ==> t.entries == entries
  }

  datatype Element = Element(name: string, text: string)

  /** The standard decoder on the next child: its name and direct text, nothing when the surrounding
      element is closed first, and a failure on an end element that closes neither. */
  method DecodeEntry(d: Decoder, start: string, ghost begin: nat, ghost entries: map<string, string>)
      returns (r: Result<Option<Element>>)
    requires d.Valid() && Scanned(d.stream, begin, d.pos, Scan(entries, [], ""))
    modifies d
    ensures d.Valid() && d.pos >= old(d.pos)
    ensures r.Failure? ==> forall p: nat :: !ClosesAt(d.stream, begin, p, start)
    ensures r.Failure? ==> AllComplete(d.stream, begin, old(d.pos), entries)
    ensures r.Success? ==> d.pos > old(d.pos)
    ensures r.Success? && r.value.None? ==>
              ClosesAt(d.stream, begin, d.pos - 1, start) && Scanned(d.stream, begin, d.pos - 1, Scan(entries, [], ""))
    ensures r.Success? && r.value.Some? ==>
              Scanned(d.stream, begin, d.pos, Scan(entries[r.value.value.name := r.value.value.text], [], ""))
  {
    var open: seq<string> := [];
    var text := "";
    while true
      invariant d.Valid() && d.pos >= old(d.pos)
      invariant Scanned(d.stream, begin, d.pos, Scan(entries, open, text))
      invariant open == [] ==> text == ""
      invariant forall p: nat, t :: old(d.pos) <= p <= d.pos && Scanned(d.stream, begin, p, t) && t.open == [] ==>
                                      t.entries == entries
      decreases |d.stream| - d.pos
    {
      ghost var at, s := d.pos, Scan(entries, open, text);
      var token := d.NextToken();
      if token.None? {
        NoCloseEver(d.stream, begin, at, s, start);
        return Failure;
      }
      match token.value {
        case OtherToken =>
          ScannedNext(d.stream, begin, at, s);
        case StartElement(name, _) =>
          ScannedNext(d.stream, begin, at, s);
          open := open + [name];
        case CharData(data) =>
          ScannedNext(d.stream, begin, at, s);
          if |open| == 1 {
            text := text + data;
          }
        case EndElement(name) =>
          if open == [] && name == start {
            ScannedCloses(d.stream, begin, at, s, start);
            return Success(None);
          }
          if open == [] || open[|open| - 1] != name {
            NoCloseEver(d.stream, begin, at, s, start);
            return Failure;
          }
          ScannedNext(d.stream, begin, at, s);
          open := open[..|open| - 1];
          if open == [] {
            return Success(Some(Element(name, text)));
          }
      }
    }
  }

  /** `JobLogFilterConfig.UnmarshalXML`: it succeeds exactly when the element is closed after balanced
      content, and reads up to there. The target is emptied first and filled child by child, so that
      after a failure it holds the entries of exactly the children that were complete. */
  method UnmarshalLogFilterConfig(config: MapCell, d: Decoder, start: string) returns (r: Result<()>)
    requires d.Valid()
    modifies config, d
    ensures d.Valid()
    ensures r.Success? <==> exists p: nat :: ClosesAt(d.stream, old(d.pos), p, start)
    ensures r.Success? ==> d.pos > old(d.pos) && ClosesAt(d.stream, old(d.pos), d.pos - 1, start)
    ensures r.Success? ==> Scanned(d.stream, old(d.pos), d.pos - 1, Scan(config.entries, [], ""))
    ensures r.Failure? ==> exists q: nat :: AllComplete(d.stream, old(d.pos), q, config.entries)
  {
    config.entries := map[];
    ghost var begin := d.pos;
    while true
      invariant d.Valid() && Scanned(d.stream, begin, d.pos, Scan(config.entries, [], ""))
      decreases |d.stream| - d.pos
    {
      ghost var at := d.pos;
      var entry := DecodeEntry(d, start, begin, config.entries);
      if entry.Failure? {
        assert AllComplete(d.stream, begin, at, config.entries);
        return Failure;
      }
      if entry.value.None? {
        return Success(());
      }
      config.entries := config.entries[entry.value.value.name := entry.value.value.text];
    }
  }

  // ---------------------------------------------------------------- Round trip

  /** The map that written elements denote, later ones overwriting earlier ones. */
  function Written(order: seq<string>, config: map<string, string>): map<string, string>
    requires forall k :: k in order ==> k in config
  {
    if order == [] then map[]
    else
      var last := order[|order| - 1];
      Written(order[..|order| - 1], config)[ElementName(last) := config[last]]
  }

  lemma ScanOneMore(before: seq<Token>, s: Scan, t: Token)
    requires ScanTokens(before) == Some(s)
    ensures ScanTokens(before + [t]) == ScanToken(s, t)
  {
    assert (before + [t])[..|before|] == before;
  }

  lemma ScanElement(before: seq<Token>, entries: map<string, string>, name: string, text: string)
    requires ScanTokens(before) == Some(Scan(entries, [], ""))
    ensures ScanTokens(before + ElementTokens(name, text)) == Some(Scan(entries[name := text], [], ""))
  {
    var begun, last := before + [StartElement(name, [])], EndElement(name);
    ScanOneMore(before, Scan(entries, [], ""), StartElement(name, []));
    assert [] + [name] == [name];
    if text == "" {
      ScanOneMore(begun, Scan(entries, [name], ""), last);
      assert before + ElementTokens(name, text) == begun + [last];
    } else {
      ScanOneMore(begun, Scan(entries, [name], ""), CharData(text));
      assert "" + text == text;
      ScanOneMore(begun + [CharData(text)], Scan(entries, [name], text), last);
      assert before + ElementTokens(name, text) == begun + [CharData(text)] + [last];
    }
  }

  lemma {:induction false} ScanChildren(order: seq<string>, config: map<string, string>)
    requires forall k :: k in order ==> k in config
    ensures ScanTokens(ChildTokens(order, config)) == Some(Scan(Written(order, config), [], ""))
  {
    if order != [] {
      var n := |order| - 1;
      ScanChildren(order[..n], config);
      ScanElement(ChildTokens(order[..n], config), Written(order[..n], config),
                  ElementName(order[n]), config[order[n]]);
    }
  }

  /** Written content is closed by its own end element, whatever follows. */
  lemma WrittenCloses(order: seq<string>, config: map<string, string>, suffix: seq<Token>, start: string)
    requires forall k :: k in order ==> k in config
    ensures var body := ChildTokens(order, config);
            var stream := body + ([EndElement(start)] + suffix);
            ClosesAt(stream, 0, |body|, start) && Scanned(stream, 0, |body|, Scan(Written(order, config), [], ""))
  {
    var body := ChildTokens(order, config);
    var stream := body + ([EndElement(start)] + suffix);
    ScanChildren(order, config);
    ScanNests(body);
    assert stream[0..|body|] == body;
  }

  lemma {:induction false} WrittenIsConfig(order: seq<string>, config: map<string, string>)
    requires Distinct(order) && "" !in config && forall k :: k in order ==> k in config
    ensures Written(order, config) == map k | k in order :: config[k]
  {
    if order != [] {
      var n := |order| - 1;
      WrittenIsConfig(order[..n], config);
      assert order == order[..n] + [order[n]];
      SameMap(Written(order, config), map k | k in order :: config[k]);
    }
  }

  lemma {:induction false} WrittenNames(order: seq<string>, config: map<string, string>)
    requires forall k :: k in order ==> k in config
    ensures "" !in Written(order, config)
  {
    if order != [] {
      WrittenNames(order[..|order| - 1], config);
    }
  }

  lemma WrittenExactly(order: seq<string>, config: map<string, string>)
    requires IsOrder(order, config.Keys) && forall k :: k in order ==> k in config
    ensures Written(order, config) == config <==> "" !in config
  {
    forall k ensures k in order <==> k in config { assert k in Elements(order) <==> k in config.Keys; }
    WrittenNames(order, config);
    if "" !in config {
      WrittenIsConfig(order, config);
    }
  }

  /** A decoder positioned after the start element, with `suffix` following, returns the map and
      leaves exactly `suffix` unread. */
  ghost predicate ConfigReadsBack(order: seq<string>, config: map<string, string>, suffix: seq<Token>, start: string)
    requires forall k :: k in order ==> k in config
  {
    var body := ChildTokens(order, config);
    var stream := body + ([EndElement(start)] + suffix);
    ClosesAt(stream, 0, |body|, start) && Scanned(stream, 0, |body|, Scan(config, [], ""))
  }

  /** Log filter round trip with framing: for every emission order, every suffix and every name of the
      surrounding element, the same map comes back exactly when no key is empty. */
  lemma LogFilterRoundTripExactly(order: seq<string>, config: map<string, string>, suffix: seq<Token>, start: string)
    requires IsOrder(order, config.Keys) && forall k :: k in order ==> k in config
    ensures ConfigReadsBack(order, config, suffix, start) <==> "" !in config
  {
    WrittenCloses(order, config, suffix, start);
    WrittenExactly(order, config);
  }

  lemma DropFirst<T>(tokens: seq<T>, first: T, body: seq<T>, last: T, suffix: seq<T>)
    requires tokens == [] + ([first] + body + [last])
    ensures tokens[1..] + suffix == body + ([last] + suffix)
  {
  }

  /** Wherever a decoder stops on written content, it has read all of it. */
  lemma StopsAfterWritten(order: seq<string>, config: map<string, string>, suffix: seq<Token>, start: string,
                          pos: nat, entries: map<string, string>)
    requires forall k :: k in order ==> k in config
    requires var stream := ChildTokens(order, config) + ([EndElement(start)] + suffix);
             pos > 0 && ClosesAt(stream, 0, pos - 1, start) && Scanned(stream, 0, pos - 1, Scan(entries, [], ""))
    ensures entries == Written(order, config)
    ensures (ChildTokens(order, config) + ([EndElement(start)] + suffix))[pos..] == suffix
  {
    var body := ChildTokens(order, config);
    WrittenCloses(order, config, suffix, start);
    CloseIsUnique(body + ([EndElement(start)] + suffix), 0, |body|, pos - 1, start);
  }

  /** `UnmarshalXML` on what `MarshalXML` wrote, inside a larger stream. */
  method ReadWritten(config: map<string, string>, ghost order: seq<string>, d: Decoder,
                     ghost suffix: seq<Token>, start: string)
      returns (r: map<string, string>)
    requires IsOrder(order, config.Keys) && forall k :: k in order ==> k in config
    requires d.pos == 0 && d.stream == ChildTokens(order, config) + ([EndElement(start)] + suffix)
    modifies d
    ensures d.Valid() && d.stream[d.pos..] == suffix
    ensures r == config <==> "" !in config
  {
    var cell := new MapCell();
    WrittenCloses(order, config, suffix, start);
    var done := UnmarshalLogFilterConfig(cell, d, start);
    StopsAfterWritten(order, config, suffix, start, d.pos, cell.entries);
    WrittenExactly(order, config);
    return cell.entries;
  }

  /** `MarshalXML`, then `UnmarshalXML` on the same element inside a larger stream. */
  method RunLogFilterCodec(config: map<string, string>, attrs: seq<Attr>, suffix: seq<Token>, start: string)
      returns (r: map<string, string>, d: Decoder)
    requires config != map[]
    ensures d.Valid() && d.stream[d.pos..] == suffix
    ensures r == config <==> "" !in config
  {
    var e := new Encoder();
    ghost var order := MarshalLogFilterConfig(config, e, start, attrs);
    DropFirst(e.tokens, StartElement(start, attrs), ChildTokens(order, config), EndElement(start), suffix);
    var stream := e.tokens[1..] + suffix;
    d := new Decoder(stream);
    r := ReadWritten(config, order, d, suffix, start);
  }

  // ---------------------------------------------------------------- What a child stands for

  /** Scanning on from a state. */
  function ScanFrom(s: Scan, tokens: seq<Token>): Option<Scan>
    decreases |tokens|
  {
    if tokens == [] then Some(s)
    else
      match ScanToken(s, tokens[0])
      case None => None
      case Some(t) => ScanFrom(t, tokens[1..])
  }

  lemma {:induction false} ScanFromAppend(s: Scan, a: seq<Token>, b: seq<Token>)
    ensures ScanFrom(s, a + b) == match ScanFrom(s, a) { case None => None case Some(t) => ScanFrom(t, b) }
    decreases |a|
  {
    if a == [] {
      assert a + b == b;
    } else if ScanToken(s, a[0]).Some? {
      assert (a + b)[1..] == a[1..] + b;
      ScanFromAppend(ScanToken(s, a[0]).value, a[1..], b);
    }
  }

  lemma {:induction false} ScanIsScanFrom(tokens: seq<Token>)
    ensures ScanTokens(tokens) == ScanFrom(Scan(map[], [], ""), tokens)
  {
    if tokens != [] {
      var n := |tokens| - 1;
      ScanIsScanFrom(tokens[..n]);
      assert tokens == tokens[..n] + [tokens[n]];
      ScanFromAppend(Scan(map[], [], ""), tokens[..n], [tokens[n]]);
      assert [tokens[n]][1..] == [];
    }
  }

  /** Below a child nothing is collected; only the open elements change. */
  lemma {:induction false} DeepScan(s: Scan, tokens: seq<Token>, base: seq<string>, open: seq<string>)
    requires |base| >= 2 && s.open == base + open && Nest(tokens, open).Some?
    ensures ScanFrom(s, tokens) == Some(s.(open := base + Nest(tokens, open).value))
    decreases |tokens|
  {
    if tokens != [] {
      var t := ScanToken(s, tokens[0]);
      match tokens[0]
      case StartElement(name, _) =>
        assert base + open + [name] == base + (open + [name]);
        DeepScan(t.value, tokens[1..], base, open + [name]);
      case EndElement(name) =>
        assert (base + open)[..|base + open| - 1] == base + open[..|open| - 1];
        DeepScan(t.value, tokens[1..], base, open[..|open| - 1]);
      case _ =>
        DeepScan(s, tokens[1..], base, open);
    }
  }

  /** What can stand inside a child: text, a further element with whatever content, or something else. */
  datatype Piece = Text(text: string) | Nested(name: string, attrs: seq<Attr>, inner: seq<Token>) | Remark

  predicate Balanced(p: Piece) {
    p.Nested? ==> Nest(p.inner, []) == Some([])
  }

  function PieceTokens(p: Piece): seq<Token> {
    match p
    case Text(text) => [CharData(text)]
    case Nested(name, attrs, inner) => [StartElement(name, attrs)] + (inner + [EndElement(name)])
    case Remark => [OtherToken]
  }

  function AllTokens(pieces: seq<Piece>): seq<Token> {
    if pieces == [] then [] else PieceTokens(pieces[0]) + AllTokens(pieces[1..])
  }

  function TextOf(p: Piece): string {
    if p.Text? then p.text else ""
  }

  /** All the text that stands directly in a child, run together. */
  function DirectText(pieces: seq<Piece>): string {
    if pieces == [] then "" else TextOf(pieces[0]) + DirectText(pieces[1..])
  }

  lemma NestedIsSkipped(s: Scan, p: Piece)
    requires |s.open| == 1 && p.Nested? && Balanced(p)
    ensures ScanFrom(s, PieceTokens(p)) == Some(s)
  {
    var first, rest := StartElement(p.name, p.attrs), p.inner + [EndElement(p.name)];
    assert ([first] + rest)[0] == first && ([first] + rest)[1..] == rest;
    var deep := s.(open := s.open + [p.name]);
    assert deep.open == deep.open + [];
    DeepScan(deep, p.inner, deep.open, []);
    ScanFromAppend(deep, p.inner, [EndElement(p.name)]);
    assert [EndElement(p.name)][1..] == [];
    assert deep.open[..1] == s.open;
  }

  lemma PieceScan(s: Scan, p: Piece)
    requires |s.open| == 1 && Balanced(p)
    ensures ScanFrom(s, PieceTokens(p)) == Some(s.(text := s.text + TextOf(p)))
  {
    assert s.text + "" == s.text;
    if p.Nested? {
      NestedIsSkipped(s, p);
    } else {
      assert PieceTokens(p)[1..] == [];
    }
  }

  lemma TextRunsOn(text: string, pieces: seq<Piece>)
    requires pieces != []
    ensures text + TextOf(pieces[0]) + DirectText(pieces[1..]) == text + DirectText(pieces)
  {
    RunTogether(text, TextOf(pieces[0]), DirectText(pieces[1..]));
  }

  lemma RunTogether(a: string, b: string, c: string)
    ensures a + b + c == a + (b + c)
  {
  }

  lemma {:induction false} PiecesScan(s: Scan, pieces: seq<Piece>)
    requires |s.open| == 1 && forall i :: 0 <= i < |pieces| ==> Balanced(pieces[i])
    ensures ScanFrom(s, AllTokens(pieces)) == Some(s.(text := s.text + DirectText(pieces)))
    decreases |pieces|
  {
    if pieces == [] {
      assert s.text + "" == s.text;
    } else {
      var first, rest := PieceTokens(pieces[0]), AllTokens(pieces[1..]);
      var next := s.(text := s.text + TextOf(pieces[0]));
      PieceScan(s, pieces[0]);
      ScanFromAppend(s, first, rest);
      assert ScanFrom(s, first + rest) == ScanFrom(next, rest);
      PiecesScan(next, pieces[1..]);
      TextRunsOn(s.text, pieces);
    }
  }

  /** A child adds an entry under its name, with all the text directly in it; elements inside it, remarks
      and whatever they hold do not matter. */
  lemma ChildIsEntry(before: seq<Token>, entries: map<string, string>, name: string, attrs: seq<Attr>,
                     pieces: seq<Piece>)
    requires ScanTokens(before) == Some(Scan(entries, [], "")) && forall i :: 0 <= i < |pieces| ==> Balanced(pieces[i])
    ensures ScanTokens(before + ([StartElement(name, attrs)] + AllTokens(pieces)) + [EndElement(name)]) ==
            Some(Scan(entries[name := DirectText(pieces)], [], ""))
  {
    var begun, content := Scan(map[], [], ""), [StartElement(name, attrs)] + AllTokens(pieces);
    ScanIsScanFrom(before);
    ScanIsScanFrom(before + content + [EndElement(name)]);
    ScanFromAppend(begun, before + content, [EndElement(name)]);
    ScanFromAppend(begun, before, content);
    assert content[0] == StartElement(name, attrs) && content[1..] == AllTokens(pieces);
    assert [] + [name] == [name];
    PiecesScan(Scan(entries, [name], ""), pieces);
    assert "" + DirectText(pieces) == DirectText(pieces);
    assert [EndElement(name)][1..] == [];
  }

  /** What surrounds the elements. */
  lemma WrittenFrame(start: string, attrs: seq<Attr>, order: seq<string>, config: map<string, string>)
    requires config != map[] && forall k :: k in order ==> k in config
    ensures var tokens := ConfigTokens(start, attrs, order, config);
            && |tokens| >= 2 && tokens[0] == StartElement(start, attrs) && tokens[|tokens| - 1] == EndElement(start)
            && tokens[1..|tokens| - 1] == ChildTokens(order, config)
  {
  }

  /** The elements written for one key, and for one list of keys after another. */
  lemma WrittenChildren(a: seq<string>, b: seq<string>, k: string, config: map<string, string>)
    requires (forall j :: j in a ==> j in config) && (forall j :: j in b ==> j in config) && k in config && k != ""
    ensures ChildTokens([k], config) ==
            if config[k] == "" then [StartElement(k, []), EndElement(k)]
            else [StartElement(k, []), CharData(config[k]), EndElement(k)]
    ensures ChildTokens(a + b, config) == ChildTokens(a, config) + ChildTokens(b, config)
  {
    assert [k][..0] == [];
    ChildrenAppend(a, b, config);
  }

  lemma {:induction false} ChildrenAppend(a: seq<string>, b: seq<string>, config: map<string, string>)
    requires (forall j :: j in a ==> j in config) && (forall j :: j in b ==> j in config)
    ensures ChildTokens(a + b, config) == ChildTokens(a, config) + ChildTokens(b, config)
  {
    if b == [] {
      assert a + b == a;
    } else {
      var n := |b| - 1;
      ChildrenAppend(a, b[..n], config);
      assert (a + b)[..|a + b| - 1] == a + b[..n];
      var x, y := ChildTokens(a, config), ChildTokens(b[..n], config);
      var z := ElementTokens(ElementName(b[n]), config[b[n]]);
      assert x + y + z == x + (y + z);
    }
  }
}
