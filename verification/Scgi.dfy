/** src/helper/wr_scgi.c: a message is built in place, in a buffer with 40 bytes kept free in front. */
module Scgi {
  import opened Seqs
  import opened ScgiFormat
  import opened ScgiRoundTrip

  const START := 40         // SCGI_START_OFFSET
  const BLOCK := 2048       // SCGI_HEADER_BLOCK_SIZE
  const INT_LIMIT := 0x8000_0000

  /** '-' becomes '_', lower case becomes upper case (wr_toupper). */
  function Norm(c: char): char {
    if c == '-' then '_' else if 'a' <= c <= 'z' then c - 32 as char else c
  }

  function NormAll(s: string): (r: string)
    ensures |r| == |s| && forall i :: 0 <= i < |s| ==> r[i] == Norm(s[i])
  {
    seq(|s|, i requires 0 <= i < |s| => Norm(s[i]))
  }

  /** Byte by byte: '_' for '-', the capital for a letter, anything else as it was. */
  ghost predicate Capitalized(f: string, n: string) {
    && |n| == |f| && '-' !in n && (forall c :: c in n ==> !('a' <= c <= 'z'))
    && forall i :: 0 <= i < |f| ==>
      if f[i] == '-' then n[i] == '_'
      else if 'a' <= f[i] <= 'z' then 'A' <= n[i] <= 'Z' && n[i] - 'A' == f[i] - 'a'
      else n[i] == f[i]
  }

  lemma NormIs(f: string)
    ensures Capitalized(f, NormAll(f))
  {
    var n := NormAll(f);
    forall i | 0 <= i < |n| ensures n[i] != '-' && !('a' <= n[i] <= 'z') {
      assert n[i] == Norm(f[i]);
    }
  }

  lemma UserAgent()
    ensures NormAll("User-Agent") == "USER_AGENT"
  {
    var n := NormAll("User-Agent");
    assert forall i :: 0 <= i < 10 ==> n[i] == "USER_AGENT"[i];
  }

  /** What scgi_header_field_add makes of the headers; None: it returns -1. */
  function AddField(es: seq<Entry>, index: int, f: string, i: int): Option<(seq<Entry>, int)>
    requires es != []
  {
    var last := es[|es| - 1];
    if i < index then None
    else if i > index then Some((es + [Entry(NormAll(f), None)], i))
    else if last.value.Some? then None
    else Some((es[..|es| - 1] + [Entry(last.name + NormAll(f), None)], index))
  }

  /** What scgi_header_value_add makes of them. */
  function AddValue(es: seq<Entry>, index: int, v: string, i: int): Option<seq<Entry>>
    requires es != []
  {
    var last := es[|es| - 1];
    if i != index then None
    else Some(es[..|es| - 1] + [Entry(last.name, Some(if last.value.None? then v else last.value.value + v))])
  }

  // ----- one header arriving in pieces -----

  function FeedFields(es: seq<Entry>, index: int, ps: seq<string>, i: int): Option<(seq<Entry>, int)>
    requires es != []
  {
    if ps == [] then Some((es, index))
    else match FeedFields(es, index, ps[..|ps| - 1], i)
      case None => None
      case Some((d, x)) => if d == [] then None else AddField(d, x, ps[|ps| - 1], i)
  }

  function FeedValues(es: seq<Entry>, index: int, ps: seq<string>, i: int): Option<seq<Entry>>
    requires es != []
  {
    if ps == [] then Some(es)
    else match FeedValues(es, index, ps[..|ps| - 1], i)
      case None => None
      case Some(d) => if d == [] then None else AddValue(d, index, ps[|ps| - 1], i)
  }

  lemma NormConcat(a: string, b: string)
    ensures NormAll(a + b) == NormAll(a) + NormAll(b)
  {}

  lemma {:induction false} FieldChunks(es: seq<Entry>, index: int, ps: seq<string>, i: int)
    requires es != [] && i > index && ps != []
    ensures FeedFields(es, index, ps, i) == Some((es + [Entry(NormAll(Flatten(ps)), None)], i))
  {
    hide NormAll;
    var q, p := ps[..|ps| - 1], ps[|ps| - 1];
    if q == [] {
      assert Flatten(ps) == p;
    } else {
      FieldChunks(es, index, q, i);
      NormConcat(Flatten(q), p);
      var d := es + [Entry(NormAll(Flatten(q)), None)];
      assert d[..|d| - 1] == es;
    }
  }

  lemma {:induction false} ValueChunks(es: seq<Entry>, name: string, index: int, ps: seq<string>)
    requires ps != []
    ensures FeedValues(es + [Entry(name, None)], index, ps, index) == Some(es + [Entry(name, Some(Flatten(ps)))])
  {
    var q, p := ps[..|ps| - 1], ps[|ps| - 1];
    var d0 := es + [Entry(name, None)];
    assert d0[..|d0| - 1] == es;
    if q == [] {
      assert Flatten(ps) == p;
    } else {
      ValueChunks(es, name, index, q);
      var d := es + [Entry(name, Some(Flatten(q)))];
      assert d[..|d| - 1] == es;
    }
  }

  /**
   * However a header's name and value are cut into pieces, the result is the one header that the
   * whole name and the whole value give: upper-cased, '-' replaced by '_', value untouched.
   */
  lemma ChunksMakeOneHeader(es: seq<Entry>, index: int, names: seq<string>, values: seq<string>, i: int)
    requires es != [] && i > index && names != [] && values != []
    ensures var r := FeedFields(es, index, names, i);
      && r.Some? && r.value.0 != []
      && FeedValues(r.value.0, r.value.1, values, i)
           == Some(es + [Entry(NormAll(Flatten(names)), Some(Flatten(values)))])
      && r == AddField(es, index, Flatten(names), i)
    ensures Capitalized(Flatten(names), NormAll(Flatten(names)))
  {
    NormIs(Flatten(names));
    FieldChunks(es, index, names, i);
    ValueChunks(es, NormAll(Flatten(names)), i, values);
  }

  // ----- the encoding of a list that grows at its end -----

  lemma EncodeAppend(es: seq<Entry>, e: Entry)
    ensures Encode(es + [e]) == Encode(es) + EncodeEntry(e)
    ensures SlotsAt(START, es + [e]) == [SlotAt(START + |Encode(es)|, e)] + SlotsAt(START, es)
  {
    var all := es + [e];
    assert all[..|all| - 1] == es;
  }

  lemma EncodeLast(es: seq<Entry>)
    requires es != []
    ensures Encode(es) == Encode(es[..|es| - 1]) + EncodeEntry(es[|es| - 1])
    ensures |SlotsAt(START, es)| == |es|
    ensures SlotsAt(START, es)[0] == SlotAt(START + |Encode(es[..|es| - 1])|, es[|es| - 1])
    ensures SlotsAt(START, es)[1..] == SlotsAt(START, es[..|es| - 1])
  {}

  /** Writing over the NUL behind the newest name or value extends it. */
  lemma Extend(b: string, s: string, t: string)
    ensures (b + (s + [NUL]))[..|b + (s + [NUL])| - 1] + t + [NUL] == b + ((s + t) + [NUL])
  {
    assert (b + (s + [NUL]))[..|b + (s + [NUL])| - 1] == b + s;
  }

  lemma NormTail(b: string, f: string)
    ensures b + NormAll(f + [NUL]) == b + NormAll(f) + [NUL]
    ensures (b + f + [NUL])[..|b|] == b && (b + f + [NUL])[|b|..] == f + [NUL]
  {}

  /** The last bytes of a block, in the buffer. */
  lemma LastBytes(h: string, i: nat, k: nat, b: string, n: string)
    requires i <= k <= |h| && h[i..k] == b + n + [NUL]
    ensures i <= k - 1 - |n| && h[k - 1 - |n|..k - 1] == n && h[k - 1] == NUL
  {
    var s := b + n + [NUL];
    assert s[|b|..|b| + |n|] == n && s[|b| + |n|] == NUL;
    SliceOf(h, i, k, |b|, |b| + |n|);
    assert h[k - 1] == h[i..k][|b| + |n|];
  }

  lemma SliceOf(h: string, i: nat, k: nat, x: nat, y: nat)
    requires i <= k <= |h| && x <= y <= k - i
    ensures h[i..k][x..y] == h[i + x..i + y]
  {
    var s, t := h[i..k][x..y], h[i + x..i + y];
    assert forall j :: 0 <= j < y - x ==> s[j] == h[i..k][x + j] == h[i + (x + j)] == t[j];
    assert s == t;
  }

  lemma NewNameBytes(b: string, n: string)
    ensures b[..|b| - 0] + n + [NUL] == b + (n + [NUL])
  {}

  lemma Join(s: string, i: nat, j: nat, k: nat)
    requires i <= j <= k <= |s|
    ensures s[i..k] == s[i..j] + s[j..k]
  {}

  lemma NameBytes(e: Entry)
    requires e.value.None?
    ensures EncodeEntry(e) == e.name + [NUL]
  {}

  /** A further piece of the newest header's name: the bytes and the slot that change. */
  lemma NameGrows(es: seq<Entry>, f: string)
    requires es != [] && es[|es| - 1].value.None?
    ensures var p, e := es[..|es| - 1], es[|es| - 1];
      var all := p + [Entry(e.name + f, None)];
      && |SlotsAt(START, es)| == |es| && Encode(es) != []
      && Encode(all) == Encode(es)[..|Encode(es)| - 1] + f + [NUL]
      && var s := SlotsAt(START, es)[0];
      SlotsAt(START, all) == [s.(fieldLength := s.fieldLength + |f|)] + SlotsAt(START, es)[1..]
  {
    hide Encode, SlotsAt, EncodeEntry;
    var p, e := es[..|es| - 1], es[|es| - 1];
    EncodeLast(es);
    EncodeAppend(p, Entry(e.name + f, None));
    NameBytes(e);
    NameBytes(Entry(e.name + f, None));
    Extend(Encode(p), e.name, f);
  }

  lemma FirstValue(b: string, n: string, v: string)
    ensures b + (n + [NUL]) + v + [NUL] == b + (n + [NUL] + (v + [NUL]))
  {}

  lemma MoreValue(b: string, n: string, v: string, w: string)
    ensures (b + (n + [NUL] + (v + [NUL])))[..|b + (n + [NUL] + (v + [NUL]))| - 1] + w + [NUL]
      == b + (n + [NUL] + (v + w + [NUL]))
  {
    assert (b + (n + [NUL] + (v + [NUL])))[..|b + (n + [NUL] + (v + [NUL]))| - 1] == b + (n + [NUL] + v);
  }

  /** The newest header gets its value, in a new place or by a further piece of it. */
  lemma ValueStarts(es: seq<Entry>, v: string)
    requires es != [] && es[|es| - 1].value.None?
    ensures var p, e := es[..|es| - 1], es[|es| - 1];
      var all := p + [Entry(e.name, Some(v))];
      && |SlotsAt(START, es)| == |es| && Encode(all) == Encode(es) + v + [NUL]
      && SlotsAt(START, all)
        == [SlotsAt(START, es)[0].(valueOffset := START + |Encode(es)|, valueLength := |v|)] + SlotsAt(START, es)[1..]
  {
    hide Encode, SlotsAt, EncodeEntry;
    var p, e := es[..|es| - 1], es[|es| - 1];
    EncodeLast(es);
    EncodeAppend(p, Entry(e.name, Some(v)));
    NameBytes(e);
    EntryBytes(Entry(e.name, Some(v)));
    FirstValue(Encode(p), e.name, v);
  }

  lemma ValueGrows(es: seq<Entry>, v: string)
    requires es != [] && es[|es| - 1].value.Some?
    ensures var p, e := es[..|es| - 1], es[|es| - 1];
      var all := p + [Entry(e.name, Some(e.value.value + v))];
      && |SlotsAt(START, es)| == |es| && Encode(es) != []
      && Encode(all) == Encode(es)[..|Encode(es)| - 1] + v + [NUL]
      && var s := SlotsAt(START, es)[0];
      SlotsAt(START, all) == [s.(valueLength := s.valueLength + |v|)] + SlotsAt(START, es)[1..]
  {
    hide Encode, SlotsAt, EncodeEntry;
    var p, e := es[..|es| - 1], es[|es| - 1];
    EncodeLast(es);
    EncodeAppend(p, Entry(e.name, Some(e.value.value + v)));
    EntryBytes(e);
    EntryBytes(Entry(e.name, Some(e.value.value + v)));
    MoreValue(Encode(p), e.name, e.value.value, v);
  }

  /** value_offset tells whether the newest header has a value yet. */
  lemma FirstSlot(es: seq<Entry>)
    requires es != []
    ensures SlotsAt(START, es)[0].valueOffset == 0 <==> es[|es| - 1].value == None
  {}

  lemma PairBytes(b: string, n: string, v: string)
    ensures b + n + [NUL] + v + [NUL] == b + (n + [NUL] + (v + [NUL]))
  {}

  method Memcpy(a: array<char>, at: nat, s: string)
    requires at + |s| <= a.Length
    modifies a
    ensures a[..] == old(a[..at]) + s + old(a[at + |s|..])
    ensures forall i :: 0 <= i < a.Length ==> a[i] == if at <= i < at + |s| then s[i - at] else old(a[i])
  {
    forall i | 0 <= i < |s| {
      a[at + i] := s[i];
    }
  }

  /** The writes of scgi_content_length_add, back to front. */
  method WritePrefix(a: array<char>, start: nat, value: string) returns (s: nat)
    requires a.Length >= START && 0 < start <= START && |value| <= 10
    requires start < START ==> a[START - 1] == NUL
    modifies a
    ensures s + |CONTENT_LENGTH| + 1 + |value| + 1 == START
    ensures a[s..START] == CONTENT_LENGTH + [NUL] + (value + [NUL])
    ensures forall i :: START <= i < a.Length ==> a[i] == old(a[i])
  {
    a[start - 1] := NUL;
    var at := START - |value| - 1;
    Memcpy(a, at, value);
    a[at - 1] := NUL;
    s := at - (|CONTENT_LENGTH| + 1);
    Memcpy(a, s, CONTENT_LENGTH);
    assert a[s..at - 1] == CONTENT_LENGTH;
    assert a[at - 1..at] == [NUL];
    assert a[at..START - 1] == value;
    assert a[START - 1..START] == [NUL];
    Pieces(a[..], s, at - 1, at, START - 1, START);
  }

  lemma Pieces(h: string, i: nat, j: nat, k: nat, l: nat, m: nat)
    requires i <= j <= k <= l <= m <= |h|
    ensures h[i..m] == h[i..j] + h[j..k] + (h[k..l] + h[l..m])
  {
    Join(h, i, k, m);
    Join(h, i, j, k);
    Join(h, k, l, m);
  }

  /** The writes of scgi_build: the length and a colon in front, the comma behind. */
  method WriteFrame(a: array<char>, start: nat, end: nat, lengthStr: string)
    requires |lengthStr| <= start <= end < a.Length
    modifies a
    ensures a[start - |lengthStr|..end + 1] == lengthStr + old(a[start..end]) + ","
  {
    var from := start - |lengthStr|;
    ghost var was := a[start..end];
    Memcpy(a, from, lengthStr);
    a[end] := ',';
    assert a[start..end] == was;
    assert a[from..start] == lengthStr;
    assert a[end..end + 1] == ",";
    Pieces(a[..], from, start, end, end, end + 1);
    assert a[from..end + 1] == a[from..start] + a[start..end] + (a[end..end] + a[end..end + 1]);
  }

  class Message {
    var header: array<char>
    var headerSize: nat
    var headerOffset: nat
    var startOffset: nat
    var headerLength: nat
    var length: nat
    var bytesSent: nat
    var body: string
    var index: int
    var headerList: seq<Slot>          // newest first
    ghost var entries: seq<Entry>      // oldest first
    ghost var declared: Option<nat>    // the CONTENT_LENGTH in the prefix, once it is there

    /** The write offset never passes the size, which leaves two bytes for the comma. */
    ghost predicate Room()
      reads this, header
    {
      header.Length == headerSize + 2 && START <= headerOffset <= headerSize
    }

    ghost function Prefix(): string
      requires Room()
      reads this, header
    {
      header[..START]
    }

    ghost function Block(): string
      requires Room()
      reads this, header
    {
      header[START..headerOffset]
    }

    /** Before scgi_build: the block encodes the headers, the list says where they are. */
    ghost predicate Open()
      reads this, header
    {
      && Room() && entries != []
      && Block() == Encode(entries)
      && headerList == SlotsAt(START, entries)
      && bytesSent == 0
      && PrefixHolds(Prefix(), startOffset, declared)
    }

    static ghost predicate PrefixHolds(prefix: string, start: nat, declared: Option<nat>)
    {
      |prefix| == START &&
      match declared
      case None => start == START
      case Some(n) => n < INT_LIMIT && start <= START && prefix[start..] == EncodeEntry(LengthEntry(n))
    }

    /** After scgi_build: from startOffset to headerOffset lies the complete netstring. */
    ghost predicate Built()
      reads this, header
    {
      && declared.Some?
      && startOffset <= headerOffset <= header.Length
      && header[startOffset..headerOffset] == HeaderBytes(entries, declared.value)
      && length == headerOffset - startOffset + |body|
      && bytesSent <= length
    }

    /** scgi_new */
    constructor ()
      ensures Open() && fresh(header)
      ensures entries == [Entry("SCGI", Some("1"))] && body == [] && index == -1 && declared == None
    {
      header := new char[BLOCK];
      headerSize := BLOCK - 2;
      headerOffset, startOffset, headerLength, length, bytesSent := START, START, 0, 0, 0;
      body, index, headerList := [], -1, [];
      entries, declared := [], None;
      new;
      AddPair("SCGI", "1");
    }

    /** scgi_memory_check: grow by whole blocks, keeping what is there. */
    method MemoryCheck(required: nat)
      requires Room()
      modifies `header, `headerSize
      ensures Room() && required <= headerSize
      ensures header == old(header) || fresh(header)
      ensures Prefix() == old(Prefix()) && Block() == old(Block())
    {
      if required > headerSize {
        var size := headerSize + BLOCK;
        while required > size
        {
          size := size + BLOCK;
        }
        var buffer := new char[size + 2];
        forall i | 0 <= i < header.Length {
          buffer[i] := header[i];
        }
        ghost var was := header[..];
        headerSize, header := size, buffer;
        assert header[..|was|] == was;
        assert header[..START] == was[..START] && header[START..headerOffset] == was[START..headerOffset];
      }
    }

    /** memcpy to the write offset, which moves on. */
    method Append(s: string)
      requires Room() && headerOffset + |s| <= headerSize
      modifies header, `headerOffset
      ensures Room() && Prefix() == old(Prefix()) && Block() == old(Block()) + s
      ensures headerOffset == old(headerOffset) + |s|
    {
      ghost var was := header[..];
      Memcpy(header, headerOffset, s);
      headerOffset := headerOffset + |s|;
      assert header[START..headerOffset] == was[START..old(headerOffset)] + s;
    }

    /** scgi_header_add */
    method HeaderAdd(field: string, value: string)
      requires Open()
      modifies this, header
      ensures Open() && (header == old(header) || fresh(header))
      ensures entries == old(entries) + [Entry(field, Some(value))]
      ensures index == old(index) && body == old(body) && declared == old(declared)
    {
      AddPair(field, value);
    }

    /** Its work, also done by scgi_new on the still empty list. */
    method AddPair(field: string, value: string)
      requires Room() && Block() == Encode(entries) && headerList == SlotsAt(START, entries)
      requires bytesSent == 0 && PrefixHolds(Prefix(), startOffset, declared)
      modifies this, header
      ensures Open() && (header == old(header) || fresh(header))
      ensures entries == old(entries) + [Entry(field, Some(value))]
      ensures index == old(index) && body == old(body) && declared == old(declared)
    {
      hide PrefixHolds, Encode, SlotsAt, EncodeEntry;
      ghost var e := Entry(field, Some(value));
      EncodeAppend(entries, e);
      EntryBytes(e);
      MemoryCheck(headerOffset + |field| + |value| + 2);
      var slot := WritePair(field, value);
      headerList := [slot] + headerList;
      entries := entries + [e];
    }

    /** The two memcpy calls of scgi_header_add, with the NULs between and behind. */
    method WritePair(field: string, value: string) returns (slot: Slot)
      requires Room() && headerOffset + |field| + |value| + 2 <= headerSize
      modifies header, `headerOffset
      ensures Room() && Prefix() == old(Prefix())
      ensures Block() == old(Block()) + (field + [NUL] + (value + [NUL]))
      ensures slot == SlotAt(old(headerOffset), Entry(field, Some(value)))
    {
      ghost var was := Block();
      var fieldOffset := headerOffset;
      Append(field);
      Append([NUL]);
      var valueOffset := headerOffset;
      Append(value);
      Append([NUL]);
      slot := Slot(fieldOffset, |field|, valueOffset, |value|);
      PairBytes(was, field, value);
    }

    /** memcpy at the write offset or one byte before it, over the last NUL, and a new NUL behind. */
    method WriteTail(back: nat, s: string)
      requires Room() && back <= 1 && headerOffset - back >= START && headerOffset - back + |s| + 1 <= headerSize
      modifies header, `headerOffset
      ensures Room() && Prefix() == old(Prefix())
      ensures Block() == old(Block()[..|Block()| - back]) + s + [NUL]
      ensures headerOffset == old(headerOffset) - back + |s| + 1
    {
      ghost var was := Block();
      headerOffset := headerOffset - back;
      assert Block() == was[..|was| - back];
      Append(s);
      Append([NUL]);
    }

    /** The loop at the end of scgi_header_field_add. */
    method Normalize(from: nat)
      requires Room() && START <= from <= headerOffset
      modifies header
      ensures Room() && Prefix() == old(Prefix())
      ensures Block() == old(Block()[..from - START]) + NormAll(old(Block()[from - START..]))
    {
      ghost var was, n := Block(), from - START;
      var i := from;
      while i < headerOffset
        invariant from <= i <= headerOffset
        invariant forall j :: 0 <= j < header.Length ==>
          header[j] == if from <= j < i then Norm(old(header[j])) else old(header[j])
      {
        header[i] := Norm(header[i]);
        i := i + 1;
      }
      assert forall j :: 0 <= j < |was| ==> was[j] == old(header[START + j]);
      assert forall j :: 0 <= j < n ==> header[START..from][j] == header[START + j];
      assert header[START..from] == was[..n];
      assert forall j :: 0 <= j < |was| - n ==> header[from..headerOffset][j] == header[from + j];
      assert header[from..headerOffset] == NormAll(was[n..]);
      Join(header[..], START, from, headerOffset);
    }

    /** scgi_header_field_add */
    method HeaderFieldAdd(field: string, i: int) returns (rc: int)
      requires Open()
      modifies this, header
      ensures Open() && (header == old(header) || fresh(header))
      ensures body == old(body) && declared == old(declared)
      ensures match AddField(old(entries), old(index), field, i)
        case None => rc == -1 && entries == old(entries) && index == old(index)
        case Some((es, x)) => rc == 0 && entries == es && index == x
      ensures rc == if i < old(index) || (i == old(index) && old(entries[|entries| - 1].value.Some?)) then -1 else 0
      ensures rc == 0 ==>
        START + |field| < headerOffset && header[headerOffset - 1] == NUL
        && Capitalized(field, header[headerOffset - 1 - |field|..headerOffset - 1])
    {
      NormIs(field);
      hide Capitalized, NormAll, PrefixHolds, Encode, SlotsAt, EncodeEntry;
      if i < index {
        return -1;
      }
      if index == i {
        FirstSlot(entries);
        if headerList[0].valueOffset != 0 {
          return -1;
        }
        GrowName(field);
      } else {
        index := i;
        NewName(field);
      }
      return 0;
    }

    /** The bytes in front of the write offset are these and a NUL. */
    ghost predicate Ends(s: string)
      reads this, header
    {
      START + |s| < headerOffset <= header.Length
      && header[headerOffset - 1 - |s|..headerOffset - 1] == s && header[headerOffset - 1] == NUL
    }

    /** memcpy of (a piece of) a name, and the loop that normalizes it in place. */
    method WriteName(back: nat, field: string)
      requires Room() && back <= 1 && headerOffset - back >= START && headerOffset - back + |field| + 1 <= headerSize
      modifies header, `headerOffset
      ensures Room() && Prefix() == old(Prefix())
      ensures Block() == old(Block()[..|Block()| - back]) + NormAll(field) + [NUL]
      ensures headerOffset == old(headerOffset) - back + |field| + 1
      ensures Ends(NormAll(field))
    {
      hide NormAll;
      ghost var was := Block()[..|Block()| - back];
      var from := headerOffset - back;
      WriteTail(back, field);
      Normalize(from);
      NormTail(was, field);
      LastBytes(header[..], START, headerOffset, was, NormAll(field));
    }

    /** A further piece of the newest header's name. */
    method GrowName(field: string)
      requires Open() && entries[|entries| - 1].value == None
      modifies `header, `headerSize, `headerOffset, `headerList, `entries, header
      ensures Open() && (header == old(header) || fresh(header))
      ensures var p, e := old(entries)[..|old(entries)| - 1], old(entries)[|old(entries)| - 1];
        entries == p + [Entry(e.name + NormAll(field), None)]
      ensures Ends(NormAll(field))
    {
      hide PrefixHolds, Encode, SlotsAt, NormAll, EncodeEntry;
      ghost var p, e := entries[..|entries| - 1], entries[|entries| - 1];
      NameGrows(entries, NormAll(field));
      MemoryCheck(headerOffset + |field|);
      WriteName(1, field);
      headerList := [headerList[0].(fieldLength := headerList[0].fieldLength + |field|)] + headerList[1..];
      entries := p + [Entry(e.name + NormAll(field), None)];
    }

    /** The first piece of a new header's name. */
    method NewName(field: string)
      requires Open()
      modifies `header, `headerSize, `headerOffset, `headerList, `entries, header
      ensures Open() && (header == old(header) || fresh(header))
      ensures entries == old(entries) + [Entry(NormAll(field), None)]
      ensures Ends(NormAll(field))
    {
      hide PrefixHolds, Encode, SlotsAt, NormAll;
      ghost var e := Entry(NormAll(field), None);
      EncodeAppend(entries, e);
      MemoryCheck(headerOffset + |field| + 1);
      var slot := Slot(headerOffset, |field|, 0, 0);
      WriteName(0, field);
      headerList := [slot] + headerList;
      NewNameBytes(Encode(entries), NormAll(field));
      entries := entries + [e];
    }

    /** scgi_header_value_add */
    method HeaderValueAdd(value: string, i: int) returns (rc: int)
      requires Open()
      modifies this, header
      ensures Open() && (header == old(header) || fresh(header))
      ensures body == old(body) && declared == old(declared) && index == old(index)
      ensures match AddValue(old(entries), old(index), value, i)
        case None => rc == -1 && entries == old(entries)
        case Some(es) => rc == 0 && entries == es
      ensures rc == if i != old(index) then -1 else 0
    {
      if i != index {
        return -1;
      }
      FirstSlot(entries);
      if headerList[0].valueOffset == 0 {
        StartValue(value);
      } else {
        GrowValue(value);
      }
      return 0;
    }

    /** The first piece of the newest header's value. */
    method StartValue(value: string)
      requires Open() && entries[|entries| - 1].value == None
      modifies `header, `headerSize, `headerOffset, `headerList, `entries, header
      ensures Open() && (header == old(header) || fresh(header))
      ensures var p, e := old(entries)[..|old(entries)| - 1], old(entries)[|old(entries)| - 1];
        entries == p + [Entry(e.name, Some(value))]
    {
      hide PrefixHolds, Encode, SlotsAt, EncodeEntry;
      ghost var p, e := entries[..|entries| - 1], entries[|entries| - 1];
      ValueStarts(entries, value);
      MemoryCheck(headerOffset + |value| + 1);
      headerList := [headerList[0].(valueOffset := headerOffset, valueLength := |value|)] + headerList[1..];
      WriteTail(0, value);
      entries := p + [Entry(e.name, Some(value))];
    }

    /** A further piece of it. */
    method GrowValue(value: string)
      requires Open() && entries[|entries| - 1].value.Some?
      modifies `header, `headerSize, `headerOffset, `headerList, `entries, header
      ensures Open() && (header == old(header) || fresh(header))
      ensures var p, e := old(entries)[..|old(entries)| - 1], old(entries)[|old(entries)| - 1];
        entries == p + [Entry(e.name, Some(e.value.value + value))]
    {
      hide PrefixHolds, Encode, SlotsAt, EncodeEntry;
      ghost var p, e := entries[..|entries| - 1], entries[|entries| - 1];
      ValueGrows(entries, value);
      MemoryCheck(headerOffset + |value|);
      WriteTail(1, value);
      headerList := [headerList[0].(valueLength := headerList[0].valueLength + |value|)] + headerList[1..];
      entries := p + [Entry(e.name, Some(e.value.value + value))];
    }

    /** scgi_body_add */
    method BodyAdd(s: string)
      requires Open()
      modifies `body
      ensures Open() && body == old(body) + s
    {
      body := body + s;
    }

    /** scgi_content_length_add: filled in backwards from the end of the reserved bytes. */
    method ContentLengthAdd(n: nat)
      requires Open() && n < INT_LIMIT
      modifies header, `startOffset, `declared
      ensures Open() && declared == Some(n) && entries == old(entries)
      ensures 14 <= startOffset < START && startOffset + |EncodeEntry(LengthEntry(n))| == START
    {
      hide Encode, SlotsAt;
      var value := Decimal(n);
      IntHasTenDigits(n);
      PrefixRoom();
      EntryBytes(LengthEntry(n));
      startOffset := WritePrefix(header, startOffset, value);
      declared := Some(n);
      assert Prefix()[startOffset..] == header[startOffset..START];
    }

    /** The prefix never reaches the front of the buffer, and ends in NUL once it is there. */
    lemma PrefixRoom()
      requires Open()
      ensures 14 <= startOffset <= START && (startOffset < START <==> declared.Some?)
      ensures |Prefix()| == START
      ensures declared.Some? ==>
        header[START - 1] == NUL && startOffset + |EncodeEntry(LengthEntry(declared.value))| == START
    {
      if declared.Some? {
        var n := declared.value;
        IntHasTenDigits(n);
        EntryBytes(LengthEntry(n));
        assert Prefix()[startOffset..][|EncodeEntry(LengthEntry(n))| - 1] == NUL;
      }
    }

    lemma PayloadIs()
      requires Open() && declared.Some? && startOffset <= START
      ensures header[startOffset..headerOffset] == Payload(entries, declared.value)
    {
      hide Encode, SlotsAt, EncodeEntry;
      var h := header[..];
      Join(h, startOffset, START, headerOffset);
      assert h[startOffset..START] == Prefix()[startOffset..];
    }

    /** scgi_build */
    method Build()
      requires Open() && headerOffset < INT_LIMIT
      requires declared.None? ==> |body| < INT_LIMIT
      modifies header, `startOffset, `declared, `headerLength, `headerOffset, `length
      ensures Built() && bytesSent == 0 && startOffset >= 0
      ensures declared == if old(declared).None? then Some(|body|) else old(declared)
      ensures header[startOffset..headerOffset] == HeaderBytes(entries, declared.value)
    {
      hide Encode, SlotsAt, EncodeEntry, Payload, PrefixHolds;
      PrefixRoom();
      if startOffset == START {
        ContentLengthAdd(|body|);
      }
      PrefixRoom();
      PayloadIs();
      Frame();
    }

    /** The netstring around the payload: its length and a colon in front, a comma behind. */
    method Frame()
      requires declared.Some? && bytesSent == 0
      requires 14 <= startOffset <= headerOffset < header.Length && headerOffset < INT_LIMIT
      requires header[startOffset..headerOffset] == Payload(entries, declared.value)
      modifies header, `startOffset, `headerLength, `headerOffset, `length
      ensures Built() && startOffset >= 0
      ensures header[startOffset..headerOffset] == HeaderBytes(entries, declared.value)
    {
      hide Payload;
      headerLength := headerOffset - startOffset;
      IntHasTenDigits(headerLength);
      var lengthStr := Decimal(headerLength) + ":";
      WriteFrame(header, startOffset, headerOffset, lengthStr);
      startOffset := startOffset - |lengthStr|;
      headerOffset := headerOffset + 1;
      length := headerOffset - startOffset + |body|;
    }

    /** scgi_send; `accepted` is how many of the offered bytes send() takes. */
    method Send(accepted: nat) returns (chunk: string)
      requires Built()
      requires accepted <= |Offered(HeaderBytes(entries, declared.value), body, bytesSent)|
      modifies `bytesSent
      ensures Built() && bytesSent == old(bytesSent) + accepted
      ensures chunk == Offered(HeaderBytes(entries, declared.value), body, old(bytesSent))[..accepted]
    {
      var headerBytes := headerOffset - startOffset;
      if bytesSent >= length {
        return [];
      }
      var buffer;
      if bytesSent >= headerBytes {
        buffer := body[bytesSent - headerBytes..];
      } else {
        buffer := header[startOffset + bytesSent..headerOffset];
        assert buffer == header[startOffset..headerOffset][bytesSent..];
      }
      chunk := buffer[..accepted];
      bytesSent := bytesSent + accepted;
    }
  }

  // ----- sending with short writes -----

  /** What scgi_send offers to the socket after `sent` bytes: the rest of the header, then of the body. */
  function Offered(head: string, body: string, sent: nat): string {
    if sent >= |head| + |body| then []
    else if sent >= |head| then body[sent - |head|..]
    else head[sent..]
  }

  /** The socket takes `ks[0]` bytes of what is offered, then `ks[1]`, and so on. */
  ghost predicate CanSend(head: string, body: string, ks: seq<nat>) {
    ks == [] ||
      (CanSend(head, body, ks[..|ks| - 1]) &&
       ks[|ks| - 1] <= |Offered(head, body, Sum(ks[..|ks| - 1]))|)
  }

  function Sum(ks: seq<nat>): nat {
    if ks == [] then 0 else Sum(ks[..|ks| - 1]) + ks[|ks| - 1]
  }

  ghost function Emitted(head: string, body: string, ks: seq<nat>): string
    requires CanSend(head, body, ks)
  {
    if ks == [] then []
    else
      var q := ks[..|ks| - 1];
      Emitted(head, body, q) + Offered(head, body, Sum(q))[..ks[|ks| - 1]]
  }

  lemma OfferedIs(head: string, body: string, sent: nat, k: nat)
    requires sent <= |head + body| && k <= |Offered(head, body, sent)|
    ensures sent + k <= |head + body| && Offered(head, body, sent)[..k] == (head + body)[sent..sent + k]
    ensures Offered(head, body, sent) == [] <==> sent == |head + body|
  {
    if sent < |head| { assert head[sent..][..k] == (head + body)[sent..sent + k]; }
  }

  /** Any short writes emit the header bytes and then the body bytes, nothing skipped or repeated. */
  lemma {:induction false} ShortWrites(head: string, body: string, ks: seq<nat>)
    requires CanSend(head, body, ks)
    ensures Sum(ks) <= |head + body| && Emitted(head, body, ks) == (head + body)[..Sum(ks)]
    ensures Offered(head, body, Sum(ks)) == [] <==> Emitted(head, body, ks) == head + body
  {
    hide Offered;
    var all := head + body;
    if ks != [] {
      var q, k := ks[..|ks| - 1], ks[|ks| - 1];
      ShortWrites(head, body, q);
      OfferedIs(head, body, Sum(q), k);
      Join(all, 0, Sum(q), Sum(q) + k);
    }
    OfferedIs(head, body, Sum(ks), 0);
    assert all[..|all|] == all;
  }

  // ----- scgi_parse -----

  datatype ParserState = Invalid | HeaderLength | InName | InValue | InBody | Done

  // What is known in front of byte `i`, state by state.

  ghost predicate InLength(b: string, i: nat) {
    i <= |b| && AfterColon(b, 0) == AfterColon(b, i)
  }

  ghost predicate Naming(b: string, start: nat, f: nat, i: nat, list: seq<Slot>) {
    && start <= f <= i <= |b| && AfterColon(b, 0) == Some(start)
    && Scan(b, start, []) == Scan(b, f, list) && NextStop(b, f) == NextStop(b, i)
  }

  ghost predicate Valuing(b: string, start: nat, f: nat, v: nat, i: nat, list: seq<Slot>) {
    && start <= f < v <= i <= |b| && AfterColon(b, 0) == Some(start)
    && Scan(b, start, []) == Scan(b, f, list)
    && NextStop(b, f) == v - 1 && b[v - 1] == NUL && NextNul(b, v) == NextNul(b, i)
  }

  ghost predicate Ended(b: string, start: nat, comma: nat, list: seq<Slot>) {
    AfterColon(b, 0) == Some(start) && start <= comma < |b| && Scan(b, start, []) == Some((list, comma))
  }

  lemma OnLength(b: string, i: nat)
    requires i < |b| && InLength(b, i)
    ensures b[i] == ':' ==> Naming(b, i + 1, i + 1, i + 1, [])
    ensures b[i] != ':' && IsDigit(b[i]) ==> InLength(b, i + 1)
    ensures b[i] != ':' && !IsDigit(b[i]) ==> Parse(b) == None
  {
    hide Scan;
  }

  lemma OnName(b: string, start: nat, f: nat, i: nat, list: seq<Slot>)
    requires i < |b| && Naming(b, start, f, i, list)
    ensures b[i] == NUL ==> Valuing(b, start, f, i + 1, i + 1, list)
    ensures b[i] == ',' ==> Ended(b, start, i, list)
    ensures b[i] != NUL && b[i] != ',' ==> Naming(b, start, f, i + 1, list)
  {
    hide Scan;
    if b[i] == ',' { ScanAtComma(b, f, list); }
  }

  lemma OnValue(b: string, start: nat, f: nat, v: nat, i: nat, list: seq<Slot>)
    requires i < |b| && Valuing(b, start, f, v, i, list)
    ensures b[i] == NUL ==> Naming(b, start, i + 1, i + 1, [Slot(f, v - 1 - f, v, i - v)] + list)
    ensures b[i] != NUL ==> Valuing(b, start, f, v, i + 1, list)
  {
    hide Scan;
    if b[i] == NUL { ScanStep(b, f, v - 1, i, list); }
  }

  lemma ScanAtComma(b: string, f: nat, list: seq<Slot>)
    requires f <= |b| && NextStop(b, f) < |b| && b[NextStop(b, f)] == ','
    ensures Scan(b, f, list) == Some((list, NextStop(b, f)))
  {}

  lemma ScanRunsOut(b: string, f: nat, list: seq<Slot>)
    requires f <= |b|
    requires NextStop(b, f) == |b|
      || (b[NextStop(b, f)] == NUL && NextNul(b, NextStop(b, f) + 1) == |b|)
    ensures Scan(b, f, list) == None
  {}

  lemma StartsInLength(b: string)
    ensures InLength(b, 0)
  {}

  /** The buffer ends in the middle of something. */
  lemma BreaksOff(b: string, start: nat, f: nat, v: nat, list: seq<Slot>)
    requires InLength(b, |b|) || Naming(b, start, f, |b|, list) || Valuing(b, start, f, v, |b|, list)
    ensures Parse(b) == None
  {
    hide Scan;
    if Naming(b, start, f, |b|, list) || Valuing(b, start, f, v, |b|, list) { ScanRunsOut(b, f, list); }
  }

  lemma Complete(b: string, start: nat, comma: nat, list: seq<Slot>)
    requires Ended(b, start, comma, list)
    ensures start <= comma < |b| && Parse(b) == Some(Parsed(list, comma - start, comma, BodyOf(b, comma)))
  {
    hide Scan, BodyOf;
  }

  /** Offset and length of the body behind the comma. */
  predicate BodyLies(size: nat, comma: nat, offset: nat, length: nat) {
    comma < size && if size - comma - 1 <= 1 then length == 0 else offset == comma + 1 && offset + length == size
  }

  lemma BodyLiesAt(size: nat, comma: nat, offset: nat, length: nat)
    requires comma < size
    requires if size - comma - 1 <= 1 then length == 0 else offset == comma + 1 && offset + length == size
    ensures BodyLies(size, comma, offset, length)
  {}

  lemma BodyIs(b: string, comma: nat, offset: nat, length: nat)
    requires BodyLies(|b|, comma, offset, length)
    ensures length == 0 ==> BodyOf(b, comma) == []
    ensures length > 0 ==> offset + length == |b| && BodyOf(b, comma) == b[offset..]
  {}

  /** scgi_parse: one pass over the buffer with a state variable. */
  method ScgiParse(buffer: string) returns (r: Option<Parsed>)
    ensures r == Parse(buffer)
  {
    hide Parse, BodyOf, InLength, Naming, Valuing, Ended, BodyLies;
    StartsInLength(buffer);
    if |buffer| == 0 {
      BreaksOff(buffer, 0, 0, 0, []);
      return None;
    }
    var state := HeaderLength;
    var start, comma, fieldOffset, valueOffset, bodyOffset := 0, 0, 0, 0, 0;
    var list: seq<Slot>, bodyLength: nat := [], 0;
    var i := 0;
    while i < |buffer|
      invariant 0 <= i <= |buffer|
      invariant state == HeaderLength ==> InLength(buffer, i) && list == []
      invariant state == Invalid ==> Parse(buffer) == None
      invariant state == InName ==> start <= fieldOffset <= i && Naming(buffer, start, fieldOffset, i, list)
      invariant state == InValue ==>
        start <= fieldOffset < valueOffset <= i && Valuing(buffer, start, fieldOffset, valueOffset, i, list)
      invariant state == InBody || state == Done ==> Ended(buffer, start, comma, list)
      invariant state == InBody ==> i == comma + 1 == bodyOffset < |buffer|
      invariant state != Done ==> bodyLength == 0
      invariant state == Done ==> i == |buffer| && BodyLies(|buffer|, comma, bodyOffset, bodyLength)
    {
      var c := buffer[i];
      match state {
        case HeaderLength =>
          OnLength(buffer, i);
          if c == ':' {
            start, fieldOffset, state := i + 1, i + 1, InName;
          } else if c < '0' || c > '9' {
            state := Invalid;
          }
        case InName =>
          OnName(buffer, start, fieldOffset, i, list);
          if c == NUL {
            valueOffset, state := i + 1, InValue;
          } else if c == ',' {
            comma := i;
            if i == |buffer| - 1 {
              BodyLiesAt(|buffer|, comma, bodyOffset, 0);
              state := Done;
            } else {
              state, bodyOffset := InBody, i + 1;
            }
          }
        case InValue =>
          OnValue(buffer, start, fieldOffset, valueOffset, i, list);
          if c == NUL {
            list := [Slot(fieldOffset, valueOffset - 1 - fieldOffset, valueOffset, i - valueOffset)] + list;
            fieldOffset, state := i + 1, InName;
          }
        case InBody =>
          if i != |buffer| - 1 {
            bodyLength := |buffer| - bodyOffset;
            i := |buffer| - 1;
          }
          BodyLiesAt(|buffer|, comma, bodyOffset, bodyLength);
          state := Done;
        case _ =>
          i := |buffer| - 1;
      }
      i := i + 1;
    }
    if state == Done {
      Complete(buffer, start, comma, list);
      BodyIs(buffer, comma, bodyOffset, bodyLength);
      var body := if bodyLength == 0 then [] else buffer[bodyOffset..];
      return Some(Parsed(list, comma - start, comma, body));
    }
    if state != Invalid { BreaksOff(buffer, start, fieldOffset, valueOffset, list); }
    return None;
  }
}
