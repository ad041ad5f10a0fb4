/** What one end of an SCGI connection writes, the other end reads. */
module ScgiRoundTrip {
  import opened Seqs
  import opened ScgiFormat

  /** Where an entry that starts at offset `o` sits. */
  function SlotAt(o: nat, e: Entry): Slot {
    if e.value.Some? then Slot(o, |e.name|, o + |e.name| + 1, |e.value.value|) else Slot(o, |e.name|, 0, 0)
  }

  /** The header list of a block that starts at offset `f`, newest header first. */
  function SlotsAt(f: nat, es: seq<Entry>): (r: seq<Slot>)
    ensures |r| == |es|
  {
    if es == [] then []
    else [SlotAt(f + |Encode(es[..|es| - 1])|, es[|es| - 1])] + SlotsAt(f, es[..|es| - 1])
  }

  ghost predicate At(b: string, f: nat, s: string) {
    f + |s| <= |b| && b[f..f + |s|] == s
  }

  lemma AtParts(b: string, f: nat, s: string, t: string)
    requires At(b, f, s + t)
    ensures At(b, f, s) && At(b, f + |s|, t)
  {
    assert b[f..f + |s + t|][..|s|] == s;
    assert b[f..f + |s + t|][|s|..] == t;
  }

  lemma NextStopIs(b: string, i: nat, j: nat)
    requires i <= j < |b| && (b[j] == NUL || b[j] == ',')
    requires forall k :: i <= k < j ==> b[k] != NUL && b[k] != ','
    ensures NextStop(b, i) == j
  {}

  lemma NextNulIs(b: string, i: nat, j: nat)
    requires i <= j < |b| && b[j] == NUL
    requires forall k :: i <= k < j ==> b[k] != NUL
    ensures NextNul(b, i) == j
  {}

  lemma ScanStep(b: string, f: nat, j: nat, z: nat, list: seq<Slot>)
    requires f <= j < z < |b| && NextStop(b, f) == j && b[j] == NUL && NextNul(b, j + 1) == z
    ensures Scan(b, f, list) == Scan(b, z + 1, [Slot(f, j - f, j + 1, z - j - 1)] + list)
  {}

  /** Where the parts of one header that starts at `f` lie. */
  lemma EntryLayout(b: string, f: nat, n: string, v: string)
    requires At(b, f, n + [NUL] + (v + [NUL]))
    ensures var j, z := f + |n|, f + |n| + 1 + |v|;
      && z < |b| && b[j] == NUL && b[z] == NUL
      && b[f..j] == n && b[j + 1..z] == v
  {
    assert n + [NUL] + (v + [NUL]) == n + ([NUL] + (v + [NUL]));
    AtParts(b, f, n, [NUL] + (v + [NUL]));
    AtParts(b, f + |n|, [NUL], v + [NUL]);
    AtParts(b, f + |n| + 1, v, [NUL]);
  }

  lemma Inside(b: string, f: nat, j: nat, s: string)
    requires f <= j <= |b| && b[f..j] == s
    ensures forall k :: f <= k < j ==> b[k] in s
  {
    assert forall k :: f <= k < j ==> b[k] == b[f..j][k - f];
  }

  lemma EntryBytes(e: Entry)
    requires e.value.Some?
    ensures EncodeEntry(e) == e.name + [NUL] + (e.value.value + [NUL])
  {}

  /** One clean header is read as it was written. */
  lemma ScanEntry(b: string, f: nat, e: Entry, list: seq<Slot>)
    requires CleanEntry(e) && At(b, f, EncodeEntry(e))
    ensures Scan(b, f, list) == Scan(b, f + |EncodeEntry(e)|, [SlotAt(f, e)] + list)
    ensures InRange(b, [SlotAt(f, e)]) && TextOf(b, SlotAt(f, e)) == e
  {
    hide Scan, At, Encode, EncodeEntry;
    assert EncodeEntry(e) == e.name + [NUL] + (e.value.value + [NUL]) by { EntryBytes(e); }
    var n, v := e.name, e.value.value;
    EntryLayout(b, f, n, v);
    var j, z := f + |n|, f + |n| + 1 + |v|;
    assert NextStop(b, f) == j by { Inside(b, f, j, n); NextStopIs(b, f, j); }
    assert NextNul(b, j + 1) == z by { Inside(b, j + 1, z, v); NextNulIs(b, j + 1, z); }
    ScanStep(b, f, j, z, list);
  }

  /** A clean header block is read in one pass, newest header first. */
  lemma {:induction false} ScanBlock(b: string, f: nat, es: seq<Entry>, list: seq<Slot>)
    requires Clean(es) && At(b, f, Encode(es)) && InRange(b, list)
    ensures Scan(b, f, list) == Scan(b, f + |Encode(es)|, SlotsAt(f, es) + list)
    ensures InRange(b, SlotsAt(f, es)) && Texts(b, SlotsAt(f, es)) == Reverse(es)
  {
    hide Scan, At, EncodeEntry, SlotAt, TextOf, SlotsAt, Encode, Texts, InRange, Reverse, CleanEntry;
    BlockParts(f, es);
    if es == [] {
      NoTexts(b);
      assert [] + list == list;
    } else {
      var p, e := es[..|es| - 1], es[|es| - 1];
      AtParts(b, f, Encode(p), EncodeEntry(e));
      ScanBlock(b, f, p, list);
      ListOnTop(b, SlotsAt(f, p), list);
      ScanEntry(b, f + |Encode(p)|, e, SlotsAt(f, p) + list);
      TextsCons(b, SlotAt(f + |Encode(p)|, e), SlotsAt(f, p));
      assert SlotsAt(f, es) + list == [SlotAt(f + |Encode(p)|, e)] + (SlotsAt(f, p) + list);
    }
  }

  lemma BlockParts(f: nat, es: seq<Entry>)
    ensures es == [] ==> Encode(es) == [] && SlotsAt(f, es) == [] && Reverse(es) == []
    ensures es != [] ==> var p, e := es[..|es| - 1], es[|es| - 1];
      && Encode(es) == Encode(p) + EncodeEntry(e) && Reverse(es) == [e] + Reverse(p)
      && SlotsAt(f, es) == [SlotAt(f + |Encode(p)|, e)] + SlotsAt(f, p)
  {}

  lemma NoTexts(b: string)
    ensures InRange(b, []) && Texts(b, []) == []
  {}

  lemma ListOnTop(b: string, list: seq<Slot>, more: seq<Slot>)
    requires InRange(b, list) && InRange(b, more)
    ensures InRange(b, list + more)
  {}

  lemma TextsCons(b: string, s: Slot, list: seq<Slot>)
    requires InRange(b, [s]) && InRange(b, list)
    ensures InRange(b, [s] + list) && Texts(b, [s] + list) == [TextOf(b, [s][0])] + Texts(b, list)
  {
    assert InRange(b, [s] + list);
  }

  lemma {:induction false} EncodeCons(e: Entry, es: seq<Entry>)
    ensures Encode([e] + es) == EncodeEntry(e) + Encode(es)
  {
    hide EncodeEntry;
    var all := [e] + es;
    if es == [] {
      assert all[..|all| - 1] == [];
      assert Encode(all) == EncodeEntry(e);
    } else {
      EncodeCons(e, es[..|es| - 1]);
      assert all[..|all| - 1] == [e] + es[..|es| - 1];
    }
  }

  lemma {:induction false} AfterColonIs(b: string, i: nat, j: nat)
    requires i <= j < |b| && b[j] == ':'
    requires forall k :: i <= k < j ==> IsDigit(b[k])
    ensures AfterColon(b, i) == Some(j + 1)
    decreases j - i
  {
    if i < j { AfterColonIs(b, i + 1, j); }
  }

  /** Where the parts of a message lie. */
  lemma Layout(es: seq<Entry>, n: nat, body: string)
    ensures var b, d, p := Message(es, n, body), Decimal(|Payload(es, n)|), Payload(es, n);
      && AfterColon(b, 0) == Some(|d| + 1)
      && At(b, |d| + 1, Encode([LengthEntry(n)] + es))
      && |Encode([LengthEntry(n)] + es)| == |p|
      && |b| == |d| + 2 + |p| + |body|
      && b[|d| + 1 + |p|] == ',' && b[|d| + 2 + |p|..] == body
      && b[..|d| + 2 + |p|] == HeaderBytes(es, n)
  {
    hide Payload, Encode, Decimal, LengthEntry, AfterColon;
    var b, d, p := Message(es, n, body), Decimal(|Payload(es, n)|), Payload(es, n);
    assert Encode([LengthEntry(n)] + es) == p by { PayloadIsBlock(es, n); }
    FrameParts(d, p, body);
    AfterColonIs(b, 0, |d|);
  }

  lemma PayloadIsBlock(es: seq<Entry>, n: nat)
    ensures Encode([LengthEntry(n)] + es) == Payload(es, n)
  {
    EncodeCons(LengthEntry(n), es);
  }

  /** A netstring and what follows it, cut at the colon and the comma. */
  lemma FrameParts(d: string, p: string, body: string)
    ensures var b := d + ":" + p + "," + body;
      && |b| == |d| + 2 + |p| + |body| && b[|d|] == ':' && (forall k :: 0 <= k < |d| ==> b[k] == d[k])
      && b[|d| + 1..|d| + 1 + |p|] == p && b[|d| + 1 + |p|] == ',' && b[|d| + 2 + |p|..] == body
      && b[..|d| + 2 + |p|] == d + ":" + p + ","
  {
    var h := d + ":" + p + ",";
    var b := h + body;
    assert b[..|h|] == h && b[|h|..] == body;
    assert h[|d| + 1..|d| + 1 + |p|] == p;
    assert b[|d| + 1..|d| + 1 + |p|] == h[|d| + 1..|d| + 1 + |p|];
  }

  /** The netstring length is the distance from the colon to the comma that ends the headers. */
  lemma NetstringLength(es: seq<Entry>, n: nat, body: string)
    ensures var b := Message(es, n, body);
      && AfterColon(b, 0).Some? && var start := AfterColon(b, 0).value;
      && start + Atoi(b) < |b| && b[start + Atoi(b)] == ','
      && b[start + Atoi(b) + 1..] == body
      && At(b, start, EncodeEntry(LengthEntry(n)))
  {
    hide Payload, Encode, EncodeEntry, Decimal, LengthEntry, AfterColon, At, Atoi;
    var b, p := Message(es, n, body), Payload(es, n);
    Layout(es, n, body);
    var rest := ":" + p + "," + body;
    assert b == Decimal(|p|) + rest;
    AtoiDecimal(|p|, rest);
    EncodeCons(LengthEntry(n), es);
    AtParts(b, |Decimal(|p|)| + 1, EncodeEntry(LengthEntry(n)), Encode(es));
  }

  /** scgi_parse returns exactly the headers `es`, behind them CONTENT_LENGTH, and `body`. */
  ghost predicate ReadsBack(b: string, es: seq<Entry>, n: nat, body: string) {
    Parse(b).Some? && var r := Parse(b).value;
    && InRange(b, r.list) && Texts(b, r.list) == Reverse([LengthEntry(n)] + es)
    && r.body == body
  }

  lemma ScanEnds(b: string, c: nat, list: seq<Slot>)
    requires c < |b| && b[c] == ','
    ensures Scan(b, c, list) == Some((list, c))
  {
    NextStopIs(b, c, c);
  }

  lemma DigitsAreClean(n: nat)
    ensures CleanEntry(LengthEntry(n))
  {}

  lemma CleanMessageReadsBack(es: seq<Entry>, n: nat, body: string)
    requires Clean(es) && |body| != 1
    ensures ReadsBack(Message(es, n, body), es, n, body)
  {
    hide Scan, SlotsAt, Message, Payload, Encode, At, NextStop, AfterColon, Texts, Reverse, LengthEntry;
    var b, d, all := Message(es, n, body), Decimal(|Payload(es, n)|), [LengthEntry(n)] + es;
    Layout(es, n, body);
    DigitsAreClean(n);
    ScanBlock(b, |d| + 1, all, []);
    var c := |d| + 1 + |Payload(es, n)|;
    ScanEnds(b, c, SlotsAt(|d| + 1, all));
    assert SlotsAt(|d| + 1, all) + [] == SlotsAt(|d| + 1, all);
  }

  lemma SlotIsClean(b: string, f: nat, j: nat, e: nat)
    requires f <= j < e < |b| && NextStop(b, f) == j && NextNul(b, j + 1) == e
    ensures CleanEntry(TextOf(b, Slot(f, j - f, j + 1, e - j - 1)))
  {}

  lemma CleanCons(b: string, s: Slot, list: seq<Slot>)
    requires s.fieldOffset + s.fieldLength <= |b| && s.valueOffset + s.valueLength <= |b|
    requires InRange(b, list) && CleanEntry(TextOf(b, s)) && Clean(Texts(b, list))
    ensures InRange(b, [s] + list) && Clean(Texts(b, [s] + list))
  {
    assert InRange(b, [s] + list);
    assert Texts(b, [s] + list) == [TextOf(b, s)] + Texts(b, list);
  }

  /** Whatever the bytes: the names and values scgi_parse finds are free of delimiters. */
  lemma {:induction false} ScanFindsClean(b: string, f: nat, list: seq<Slot>)
    requires f <= |b| && InRange(b, list) && Clean(Texts(b, list))
    ensures Scan(b, f, list).Some? ==>
      InRange(b, Scan(b, f, list).value.0) && Clean(Texts(b, Scan(b, f, list).value.0))
    decreases |b| - f
  {
    hide Clean, Texts, TextOf, CleanEntry, NextStop, NextNul;
    var j := NextStop(b, f);
    if j < |b| && b[j] == NUL && NextNul(b, j + 1) < |b| {
      var e := NextNul(b, j + 1);
      var s := Slot(f, j - f, j + 1, e - j - 1);
      SlotIsClean(b, f, j, e);
      CleanCons(b, s, list);
      ScanFindsClean(b, e + 1, [s] + list);
    }
  }

  lemma ParseFindsClean(b: string)
    requires Parse(b).Some?
    ensures InRange(b, Parse(b).value.list) && Clean(Texts(b, Parse(b).value.list))
    ensures |Parse(b).value.body| != 1
  {
    hide Scan, AfterColon;
    ScanFindsClean(b, AfterColon(b, 0).value, []);
  }

  lemma OnlyCleanReadsBack(b: string, es: seq<Entry>, n: nat, body: string)
    requires ReadsBack(b, es, n, body)
    ensures Clean(es) && |body| != 1
  {
    hide Parse, Reverse, CleanEntry, Texts;
    var all := [LengthEntry(n)] + es;
    ParseFindsClean(b);
    forall i | 0 <= i < |es| ensures CleanEntry(es[i]) {
      ReverseAt(all, |es| - 1 - i);
      assert Texts(b, Parse(b).value.list)[|es| - 1 - i] == es[i];
    }
  }

  /**
   * A built message is parsed back to the same headers, in the same order, and the same body exactly
   * when every header has a value, no name contains NUL or a comma, no value contains NUL, and the
   * body is not a single byte.
   */
  lemma RoundTrip(es: seq<Entry>, n: nat, body: string)
    ensures ReadsBack(Message(es, n, body), es, n, body) <==> Clean(es) && |body| != 1
  {
    if Clean(es) && |body| != 1 {
      CleanMessageReadsBack(es, n, body);
    } else if ReadsBack(Message(es, n, body), es, n, body) {
      OnlyCleanReadsBack(Message(es, n, body), es, n, body);
    }
  }

  lemma TwoHeaders(e: Entry, f: Entry, n: nat, body: string)
    ensures var p := EncodeEntry(LengthEntry(n)) + (EncodeEntry(e) + EncodeEntry(f));
      Message([e, f], n, body) == Decimal(|p|) + ":" + p + "," + body
  {
    hide EncodeEntry, LengthEntry, Decimal;
    assert [e, f][..1] == [e] && [e][..0] == [];
    assert Encode([e]) == EncodeEntry(e);
    assert Encode([e, f]) == EncodeEntry(e) + EncodeEntry(f);
  }

  lemma EntrySize(e: Entry)
    requires e.value.Some?
    ensures |EncodeEntry(e)| == |e.name| + |e.value.value| + 2
  {}

  lemma Printed()
    ensures Decimal(12) == "12" && Decimal(37) == "37"
  {}

  /** The bytes of a small message. */
  lemma OnTheWire(body: string)
    ensures Message([Entry("SCGI", Some("1")), Entry("METHOD", Some("PING"))], 12, body)
      == "37" + ":" + ("CONTENT_LENGTH" + [NUL] + ("12" + [NUL])
                       + ("SCGI" + [NUL] + ("1" + [NUL]) + ("METHOD" + [NUL] + ("PING" + [NUL])))) + "," + body
  {
    var e, f, l := Entry("SCGI", Some("1")), Entry("METHOD", Some("PING")), LengthEntry(12);
    Printed();
    assert l == Entry("CONTENT_LENGTH", Some("12"));
    hide Message, Encode, EncodeEntry, LengthEntry, Decimal;
    EntryBytes(e);
    EntryBytes(f);
    EntryBytes(l);
    TwoHeaders(e, f, 12, body);
    EntrySize(e);
    EntrySize(f);
    EntrySize(l);
  }

  // ----- exactly what is parsed -----

  /** Digits, a colon, headers, bytes that start no header, a comma, and the body. */
  ghost predicate Shaped(b: string, digits: string, es: seq<Entry>, junk: string, body: string) {
    && (forall i :: 0 <= i < |digits| ==> '0' <= digits[i] <= '9') && Clean(es) && NUL !in junk && ',' !in junk
    && b == digits + ":" + (Encode(es) + junk) + "," + body
  }

  /** Bytes of this shape are parsed to these headers and this body, unless that is a single byte. */
  lemma ShapedIsParsed(b: string, digits: string, es: seq<Entry>, junk: string, body: string)
    requires Shaped(b, digits, es, junk, body)
    ensures Parse(b).Some? && var r := Parse(b).value;
      && InRange(b, r.list) && Texts(b, r.list) == Reverse(es) && r.body == (if |body| == 1 then [] else body)
      && r.headerLength == |Encode(es) + junk| && r.headerOffset == |digits| + 1 + r.headerLength
  {
    hide Scan, SlotsAt, Encode, NextStop, AfterColon, Texts, Reverse, InRange;
    var p, start := Encode(es) + junk, |digits| + 1;
    FrameParts(digits, p, body);
    AfterColonIs(b, 0, |digits|);
    var f, c := start + |Encode(es)|, start + |p|;
    assert b[start..start + |Encode(es)|] == b[start..c][..|Encode(es)|] == Encode(es);
    InRangeNothing(b);
    ScanBlock(b, start, es, []);
    assert SlotsAt(start, es) + [] == SlotsAt(start, es);
    forall k | f <= k < c ensures b[k] != NUL && b[k] != ',' {
      assert b[k] == b[start..c][k - start] == junk[k - f];
    }
    NextStopIs(b, f, c);
    ScanStops(b, f, SlotsAt(start, es));
  }

  lemma InRangeNothing(b: string)
    ensures InRange(b, [])
  {}

  lemma ScanStops(b: string, f: nat, list: seq<Slot>)
    requires f <= |b| && NextStop(b, f) < |b| && b[NextStop(b, f)] == ','
    ensures Scan(b, f, list) == Some((list, NextStop(b, f)))
  {}

  lemma {:induction false} AfterColonFound(b: string, i: nat)
    requires i <= |b| && AfterColon(b, i).Some?
    ensures var k := AfterColon(b, i).value;
      i < k <= |b| && b[k - 1] == ':' && forall j :: i <= j < k - 1 ==> '0' <= b[j] <= '9'
    decreases |b| - i
  {
    if b[i] != ':' { AfterColonFound(b, i + 1); }
  }

  lemma {:induction false} ScanFound(b: string, f: nat, list: seq<Slot>) returns (es: seq<Entry>, junk: string)
    requires f <= |b| && Scan(b, f, list).Some?
    ensures var c := Scan(b, f, list).value.1;
      && f <= c < |b| && b[c] == ',' && b[f..c] == Encode(es) + junk
      && Clean(es) && NUL !in junk && ',' !in junk
    decreases |b| - f
  {
    hide NextStop, NextNul, CleanEntry, EncodeEntry;
    var j := NextStop(b, f);
    if b[j] == ',' {
      es, junk := [], b[f..j];
      assert b[f..j] == [] + junk;
    } else {
      var z := NextNul(b, j + 1);
      es, junk := ScanFound(b, z + 1, [Slot(f, j - f, j + 1, z - j - 1)] + list);
      var c := Scan(b, f, list).value.1;
      SlotIsClean(b, f, j, z);
      var e := TextOf(b, Slot(f, j - f, j + 1, z - j - 1));
      EntryThere(b, f, j, z);
      EncodeCons(e, es);
      assert b[f..c] == b[f..z + 1] + b[z + 1..c];
      assert b[f..c] == Encode([e] + es) + junk;
      es := [e] + es;
    }
  }

  lemma EntryThere(b: string, f: nat, j: nat, z: nat)
    requires f <= j < z < |b| && b[j] == NUL && b[z] == NUL
    ensures b[f..z + 1] == EncodeEntry(TextOf(b, Slot(f, j - f, j + 1, z - j - 1)))
  {
    EntryBytes(TextOf(b, Slot(f, j - f, j + 1, z - j - 1)));
  }

  /** Anything else is refused. */
  lemma ParsedIsShaped(b: string)
    requires Parse(b).Some?
    ensures exists digits, es, junk, body :: Shaped(b, digits, es, junk, body)
  {
    hide Scan, Encode, Clean;
    AfterColonFound(b, 0);
    var start := AfterColon(b, 0).value;
    var es, junk := ScanFound(b, start, []);
    var c := Scan(b, start, []).value.1;
    assert b == b[..start - 1] + ":" + b[start..c] + "," + b[c + 1..];
    assert Shaped(b, b[..start - 1], es, junk, b[c + 1..]);
  }

  // ----- lookup -----

  /** scgi_header_value_get: the first header in the list with this name. */
  function Lookup(es: seq<Entry>, name: string): Option<string> {
    if es == [] then None
    else if es[0].name == name then es[0].value
    else Lookup(es[1..], name)
  }

  /** The value most recently added under this name. */
  function LastValue(es: seq<Entry>, name: string): Option<string> {
    if es == [] then None
    else if es[|es| - 1].name == name then es[|es| - 1].value
    else LastValue(es[..|es| - 1], name)
  }

  lemma {:induction false} LookupReversed(es: seq<Entry>, name: string)
    ensures Lookup(Reverse(es), name) == LastValue(es, name)
  {
    if es != [] {
      LookupReversed(es[..|es| - 1], name);
      assert Reverse(es)[1..] == Reverse(es[..|es| - 1]);
    }
  }

  lemma {:induction false} LastValueCons(e: Entry, es: seq<Entry>, name: string)
    requires Clean(es)
    ensures LastValue([e] + es, name)
      == if LastValue(es, name).Some? then LastValue(es, name) else if e.name == name then e.value else None
  {
    var all := [e] + es;
    if es == [] {
      assert all[..|all| - 1] == [];
      assert LastValue(all[..|all| - 1], name) == None;
    } else {
      assert all[..|all| - 1] == [e] + es[..|es| - 1];
      LastValueCons(e, es[..|es| - 1], name);
    }
  }

  /** Looking a field up after parsing gives what looking it up before building gave. */
  lemma LookupSurvives(es: seq<Entry>, n: nat, body: string, name: string)
    requires Clean(es) && |body| != 1
    ensures var b := Message(es, n, body);
      ReadsBack(b, es, n, body) &&
      Lookup(Texts(b, Parse(b).value.list), name)
        == if LastValue(es, name).Some? then Lookup(Reverse(es), name)
           else if name == CONTENT_LENGTH then Some(Decimal(n)) else None
  {
    CleanMessageReadsBack(es, n, body);
    LookupReversed([LengthEntry(n)] + es, name);
    LookupReversed(es, name);
    LastValueCons(LengthEntry(n), es, name);
  }
}
