/**
 * The SCGI message format (Schemenauer 2008, section 3 "Request Format") as src/helper/wr_scgi.c
 * writes and reads it. One `char` stands for one byte.
 */
module ScgiFormat {
  import opened Seqs

  const NUL: char := '\0'

  /** A header; its value is None while only (part of) the name has been added. */
  datatype Entry = Entry(name: string, value: Option<string>)

  /** scgi_header_s: where a header sits in the buffer. */
  datatype Slot = Slot(fieldOffset: nat, fieldLength: nat, valueOffset: nat, valueLength: nat)

  // ----- decimal numbers: sprintf("%d") and atoi -----

  function Digit(d: nat): char
    requires d < 10
  {
    '0' + d as char
  }

  predicate IsDigit(c: char) {
    '0' <= c <= '9'
  }

  function Decimal(n: nat): (s: string)
    ensures s != [] && forall i :: 0 <= i < |s| ==> IsDigit(s[i])
  {
    if n < 10 then [Digit(n)] else Decimal(n / 10) + [Digit(n % 10)]
  }

  /** atoi on unsigned input: the value of the leading digits. */
  function Atoi(s: string): nat {
    AtoiFrom(s, 0)
  }

  function AtoiFrom(s: string, acc: nat): nat {
    if s == [] || !IsDigit(s[0]) then acc else AtoiFrom(s[1..], 10 * acc + (s[0] - '0') as nat)
  }

  lemma {:induction false} AtoiPrefix(s: string, t: string, acc: nat)
    requires forall i :: 0 <= i < |s| ==> IsDigit(s[i])
    ensures AtoiFrom(s + t, acc) == AtoiFrom(t, AtoiFrom(s, acc))
  {
    if s == [] {
      assert s + t == t;
    } else {
      assert (s + t)[1..] == s[1..] + t;
      AtoiPrefix(s[1..], t, 10 * acc + (s[0] - '0') as nat);
    }
  }

  /** atoi undoes sprintf, whatever follows the number. */
  lemma {:induction false} AtoiDecimal(n: nat, t: string)
    requires t == [] || !IsDigit(t[0])
    ensures Atoi(Decimal(n) + t) == n
  {
    AtoiOfDecimal(n);
    AtoiPrefix(Decimal(n), t, 0);
  }

  lemma {:induction false} AtoiOfDecimal(n: nat)
    ensures AtoiFrom(Decimal(n), 0) == n
  {
    if n >= 10 {
      AtoiOfDecimal(n / 10);
      AtoiPrefix(Decimal(n / 10), [Digit(n % 10)], 0);
    }
    var d := [Digit(n % 10)];
    assert d[1..] == [];
  }

  function Pow10(d: nat): nat {
    if d == 0 then 1 else 10 * Pow10(d - 1)
  }

  lemma {:induction false} DecimalLength(n: nat, d: nat)
    requires d > 0 && n < Pow10(d)
    ensures |Decimal(n)| <= d
  {
    if n >= 10 {
      assert Pow10(d) == 10 * Pow10(d - 1);
      assert d > 1;
      DecimalLength(n / 10, d - 1);
    }
  }

  /** What "%d" prints of a non-negative int has at most ten digits. */
  lemma IntHasTenDigits(n: nat)
    requires n < 0x8000_0000
    ensures |Decimal(n)| <= 10
  {
    assert Pow10(10) == 10000000000 by {
      assert Pow10(5) == 100000;
      assert Pow10(10) == 10 * 10 * 10 * 10 * 10 * Pow10(5);
    }
    DecimalLength(n, 10);
  }

  // ----- writing -----

  function EncodeEntry(e: Entry): string {
    e.name + [NUL] + if e.value.Some? then e.value.value + [NUL] else []
  }

  /** The header block, oldest header first. */
  function Encode(es: seq<Entry>): string {
    if es == [] then [] else Encode(es[..|es| - 1]) + EncodeEntry(es[|es| - 1])
  }

  const CONTENT_LENGTH := "CONTENT_LENGTH"

  function LengthEntry(n: nat): Entry {
    Entry(CONTENT_LENGTH, Some(Decimal(n)))
  }

  /** The netstring's content: CONTENT_LENGTH first, then the headers in the order they were added. */
  function Payload(es: seq<Entry>, n: nat): string {
    EncodeEntry(LengthEntry(n)) + Encode(es)
  }

  function HeaderBytes(es: seq<Entry>, n: nat): string {
    Decimal(|Payload(es, n)|) + ":" + Payload(es, n) + ","
  }

  function Message(es: seq<Entry>, n: nat, body: string): string {
    HeaderBytes(es, n) + body
  }

  // ----- reading -----

  /** The first NUL or comma at or after `i`. */
  function NextStop(b: string, i: nat): (j: nat)
    requires i <= |b|
    ensures i <= j <= |b|
    ensures forall k :: i <= k < j ==> b[k] != NUL && b[k] != ','
    ensures j < |b| ==> b[j] == NUL || b[j] == ','
    decreases |b| - i
  {
    if i == |b| || b[i] == NUL || b[i] == ',' then i else NextStop(b, i + 1)
  }

  function NextNul(b: string, i: nat): (j: nat)
    requires i <= |b|
    ensures i <= j <= |b|
    ensures forall k :: i <= k < j ==> b[k] != NUL
    ensures j < |b| ==> b[j] == NUL
    decreases |b| - i
  {
    if i == |b| || b[i] == NUL then i else NextNul(b, i + 1)
  }

  /** The byte after the colon, if only digits precede it. */
  function AfterColon(b: string, i: nat): Option<nat>
    requires i <= |b|
    decreases |b| - i
  {
    if i == |b| then None
    else if b[i] == ':' then Some(i + 1)
    else if IsDigit(b[i]) then AfterColon(b, i + 1)
    else None
  }

  /** Headers from `f` on, put in front of `list`, and the comma that ends them. */
  function Scan(b: string, f: nat, list: seq<Slot>): Option<(seq<Slot>, nat)>
    requires f <= |b|
    decreases |b| - f, 1
  {
    var j := NextStop(b, f);
    if j == |b| then None
    else if b[j] == ',' then Some((list, j))
    else AfterName(b, f, j, list)
  }

  function AfterName(b: string, f: nat, j: nat, list: seq<Slot>): Option<(seq<Slot>, nat)>
    requires f <= j < |b|
    decreases |b| - j, 0
  {
    var e := NextNul(b, j + 1);
    if e == |b| then None
    else Scan(b, e + 1, [Slot(f, j - f, j + 1, e - j - 1)] + list)
  }

  /** scgi_t after scgi_parse: headers newest first. */
  datatype Parsed = Parsed(list: seq<Slot>, headerLength: nat, headerOffset: nat, body: string)

  /** A body of a single byte is lost: the last byte only ends the loop. */
  function BodyOf(b: string, comma: nat): string
    requires comma < |b|
  {
    if |b| - comma - 1 == 1 then [] else b[comma + 1..]
  }

  function Parse(b: string): Option<Parsed> {
    match AfterColon(b, 0)
    case None => None
    case Some(start) =>
      if start > |b| then None
      else match Scan(b, start, [])
        case None => None
        case Some((list, comma)) =>
          if start <= comma < |b| then Some(Parsed(list, comma - start, comma, BodyOf(b, comma))) else None
  }

  function TextOf(b: string, s: Slot): Entry
    requires s.fieldOffset + s.fieldLength <= |b| && s.valueOffset + s.valueLength <= |b|
  {
    Entry(b[s.fieldOffset..s.fieldOffset + s.fieldLength],
          Some(b[s.valueOffset..s.valueOffset + s.valueLength]))
  }

  predicate InRange(b: string, list: seq<Slot>) {
    forall i :: 0 <= i < |list| ==>
      list[i].fieldOffset + list[i].fieldLength <= |b| && list[i].valueOffset + list[i].valueLength <= |b|
  }

  function Texts(b: string, list: seq<Slot>): seq<Entry>
    requires InRange(b, list)
  {
    seq(|list|, i requires 0 <= i < |list| => TextOf(b, list[i]))
  }

  predicate CleanEntry(e: Entry) {
    e.value.Some? && NUL !in e.name && ',' !in e.name && NUL !in e.value.value
  }

  predicate Clean(es: seq<Entry>) {
    forall i :: 0 <= i < |es| ==> CleanEntry(es[i])
  }

  function Reverse<T>(s: seq<T>): seq<T> {
    if s == [] then [] else [s[|s| - 1]] + Reverse(s[..|s| - 1])
  }

  lemma {:induction false} ReverseAt<T>(s: seq<T>, i: nat)
    requires i < |s|
    ensures |Reverse(s)| == |s| && Reverse(s)[i] == s[|s| - 1 - i]
  {
    if i > 0 { ReverseAt(s[..|s| - 1], i - 1); } else if |s| > 1 { ReverseAt(s[..|s| - 1], 0); }
  }
}
