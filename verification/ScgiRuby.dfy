/**
 * The second SCGI implementation, src/admin_panel/lib/scgi.rb: a builder and an incremental parser that
 * keeps its state between chunks. It must agree with the C functions of ScgiFormat.
 */
module ScgiRuby {
  import opened Seqs
  import opened ScgiFormat
  import opened ScgiRoundTrip

  datatype Phase = NoState | HeaderKey | HeaderVal | InBody | Done | Invalid

  /** The instance variables that `parse` reads and writes. */
  datatype Parser = Parser(phase: Phase, tmp: string, headersLength: nat, key: string, value: string,
                           hash: map<string, string>, body: string, done: bool)

  const FRESH := Parser(NoState, [], 0, [], [], map[], [], false)

  function Up(c: char): char {
    if 'a' <= c <= 'z' then c - 'a' + 'A' else c
  }

  function Upcase(s: string): (r: string)
    ensures |r| == |s|
  {
    seq(|s|, i requires 0 <= i < |s| => Up(s[i]))
  }

  /** Each letter is replaced by its capital, anything else stays. */
  ghost predicate Capitals(s: string, u: string) {
    |u| == |s| && forall i :: 0 <= i < |s| ==>
      if 'a' <= s[i] <= 'z' then 'A' <= u[i] <= 'Z' && u[i] - 'A' == s[i] - 'a' else u[i] == s[i]
  }

  ghost predicate NoLower(s: string) {
    forall c :: c in s ==> !('a' <= c <= 'z')
  }

  lemma UpcaseIs(s: string)
    ensures Capitals(s, Upcase(s)) && NoLower(Upcase(s))
    ensures NoLower(s) ==> Upcase(s) == s
  {
    var u := Upcase(s);
    assert forall i :: 0 <= i < |s| ==> s[i] in s;
    assert NoLower(s) ==> forall i :: 0 <= i < |s| ==> u[i] == s[i];
  }

  /** `header(key).to_i`; a missing header counts as 0. */
  function Length(hash: map<string, string>): nat {
    if CONTENT_LENGTH in hash then Atoi(hash[CONTENT_LENGTH]) else 0
  }

  // ----- what one call of parse does -----

  function AddBody(p: Parser, s: string): Parser {
    var q := p.(body := p.body + s);
    if |q.body| == Length(q.hash) then q.(phase := Done, done := true) else q.(phase := InBody)
  }

  /** One character outside the body. */
  function StepChar(p: Parser, c: char): Parser {
    match p.phase
    case NoState =>
      if c == ':' then p.(headersLength := Atoi(p.tmp), phase := HeaderKey)
      else if c < '0' || c > '9' then p.(phase := Invalid)
      else p.(tmp := p.tmp + [c])
    case HeaderKey =>
      if c == NUL then p.(phase := HeaderVal)
      else if c == ',' then p.(phase := Done, done := true)
      else p.(key := p.key + [c])
    case HeaderVal =>
      if c == NUL then p.(hash := p.hash[Upcase(p.key) := p.value], key := [], value := [], phase := HeaderKey)
      else p.(value := p.value + [c])
    case _ => p
  }

  function Consume(p: Parser, req: string): Parser
    decreases |req|
  {
    if req == [] then p
    else if p.phase == InBody then AddBody(p, req)
    else if p.phase == Done then p.(done := true)
    else if p.phase == HeaderKey && req[0] == ',' && Length(p.hash) != 0 then AddBody(p, req[1..])
    else Consume(StepChar(p, req[0]), req[1..])
  }

  /** The bytes up to `s` are consumed alike, whatever follows, as long as the message is not over. */
  lemma {:induction false} SplitAnywhere(p: Parser, s: string, t: string)
    requires Consume(p, s).phase != Done
    ensures Consume(Consume(p, s), t) == Consume(p, s + t)
    decreases |s|
  {
    hide Length, StepChar, AddBody;
    if s == [] {
      assert s + t == t;
    } else if t == [] {
      assert s + t == s;
    } else {
      assert (s + t)[0] == s[0] && (s + t)[1..] == s[1..] + t;
      if p.phase == InBody {
        BodyInPieces(p, s, t);
      } else if p.phase == HeaderKey && s[0] == ',' && Length(p.hash) != 0 {
        BodyInPieces(p, s[1..], t);
      } else {
        SplitAnywhere(StepChar(p, s[0]), s[1..], t);
      }
    }
  }

  lemma BodyInPieces(p: Parser, s: string, t: string)
    ensures AddBody(p, s).phase in {InBody, Done}
    ensures AddBody(p, s).phase == InBody ==> AddBody(AddBody(p, s), t) == AddBody(p, s + t)
  {
    hide Length;
    assert p.body + s + t == p.body + (s + t);
  }

  // ----- a whole message in one piece -----

  lemma {:induction false} DigitRun(p: Parser, s: string, t: string)
    requires p.phase == NoState && forall i :: 0 <= i < |s| ==> IsDigit(s[i])
    ensures Consume(p, s + t) == Consume(p.(tmp := p.tmp + s), t)
    decreases |s|
  {
    if s == [] {
      assert s + t == t && p.tmp + s == p.tmp;
    } else {
      assert (s + t)[0] == s[0] && (s + t)[1..] == s[1..] + t;
      var q := p.(tmp := p.tmp + [s[0]]);
      DigitRun(q, s[1..], t);
      assert p.tmp + [s[0]] + s[1..] == p.tmp + s;
    }
  }

  lemma {:induction false} KeyRun(p: Parser, s: string, t: string)
    requires p.phase == HeaderKey && NUL !in s && ',' !in s
    ensures Consume(p, s + t) == Consume(p.(key := p.key + s), t)
    decreases |s|
  {
    if s == [] {
      assert s + t == t && p.key + s == p.key;
    } else {
      assert (s + t)[0] == s[0] && (s + t)[1..] == s[1..] + t;
      KeyRun(p.(key := p.key + [s[0]]), s[1..], t);
      assert p.key + [s[0]] + s[1..] == p.key + s;
    }
  }

  lemma {:induction false} ValueRun(p: Parser, s: string, t: string)
    requires p.phase == HeaderVal && NUL !in s
    ensures Consume(p, s + t) == Consume(p.(value := p.value + s), t)
    decreases |s|
  {
    if s == [] {
      assert s + t == t && p.value + s == p.value;
    } else {
      assert (s + t)[0] == s[0] && (s + t)[1..] == s[1..] + t;
      ValueRun(p.(value := p.value + [s[0]]), s[1..], t);
      assert p.value + [s[0]] + s[1..] == p.value + s;
    }
  }

  /** At the start of a header line: nothing collected yet. */
  ghost predicate AtKey(p: Parser) {
    p.phase == HeaderKey && p.key == [] && p.value == []
  }

  lemma ConsumeChar(p: Parser, c: char, t: string)
    requires p.phase == NoState || p.phase == HeaderVal || (p.phase == HeaderKey && c != ',')
    ensures Consume(p, [c] + t) == Consume(StepChar(p, c), t)
  {
    assert ([c] + t)[1..] == t;
  }

  lemma ConsumeEntry(p: Parser, e: Entry, t: string)
    requires AtKey(p) && CleanEntry(e)
    ensures Consume(p, EncodeEntry(e) + t) == Consume(p.(hash := p.hash[Upcase(e.name) := e.value.value]), t)
  {
    hide Consume, Upcase, Length;
    var n, v := e.name, e.value.value;
    assert EncodeEntry(e) + t == n + ([NUL] + (v + ([NUL] + t)));
    KeyRun(p, n, [NUL] + (v + ([NUL] + t)));
    assert [] + n == n && [] + v == v;
    var q := p.(key := n);
    ConsumeChar(q, NUL, v + ([NUL] + t));
    q := q.(phase := HeaderVal);
    ValueRun(q, v, [NUL] + t);
    ConsumeChar(q.(value := v), NUL, t);
  }

  /** The hash after reading these headers, oldest first: a later header replaces an earlier one. */
  function Hashed(hash: map<string, string>, es: seq<Entry>): map<string, string>
    requires Clean(es)
  {
    if es == [] then hash
    else Hashed(hash, es[..|es| - 1])[Upcase(es[|es| - 1].name) := es[|es| - 1].value.value]
  }

  lemma {:induction false} ConsumeBlock(p: Parser, es: seq<Entry>, t: string)
    requires AtKey(p) && Clean(es)
    ensures Consume(p, Encode(es) + t) == Consume(p.(hash := Hashed(p.hash, es)), t)
    decreases |es|
  {
    hide Consume, EncodeEntry, Upcase;
    if es == [] {
      assert Encode(es) + t == t;
    } else {
      var q, e := es[..|es| - 1], es[|es| - 1];
      ConsumeBlock(p, q, EncodeEntry(e) + t);
      assert Encode(es) + t == Encode(q) + (EncodeEntry(e) + t);
      ConsumeEntry(p.(hash := Hashed(p.hash, q)), e, t);
    }
  }

  /** Every header of the message, oldest first. */
  function All(es: seq<Entry>, n: nat): seq<Entry> {
    [LengthEntry(n)] + es
  }

  function BeforeComma(es: seq<Entry>, n: nat): string {
    Decimal(|Payload(es, n)|) + ":" + Payload(es, n)
  }

  /** The parser state in front of the comma. */
  lemma ConsumeHeaders(es: seq<Entry>, n: nat, t: string)
    requires Clean(es)
    ensures Consume(FRESH, BeforeComma(es, n) + t) == Consume(Headed(es, n), t)
  {
    hide Consume, Encode, Hashed, Payload, Decimal, Atoi, LengthEntry;
    var p := Payload(es, n);
    var d := Decimal(|p|);
    PayloadIsBlock(es, n);
    assert Clean(All(es, n)) by { DigitsAreClean(n); }
    assert BeforeComma(es, n) + t == d + ([':'] + (p + t));
    DigitRun(FRESH, d, [':'] + (p + t));
    assert [] + d == d;
    ConsumeChar(FRESH.(tmp := d), ':', p + t);
    ConsumeBlock(FRESH.(tmp := d, headersLength := Atoi(d), phase := HeaderKey), All(es, n), t);
  }

  function Headed(es: seq<Entry>, n: nat): Parser
    requires Clean(es)
  {
    var d := Decimal(|Payload(es, n)|);
    Parser(HeaderKey, d, Atoi(d), [], [], Hashed(map[], All(es, n)), [], false)
  }

  ghost predicate NoLength(es: seq<Entry>) {
    forall i :: 0 <= i < |es| ==> Upcase(es[i].name) != CONTENT_LENGTH
  }

  lemma {:induction false} HashedLength(es: seq<Entry>, n: nat)
    requires Clean(es) && NoLength(es)
    ensures Length(Hashed(map[], All(es, n))) == n
  {
    var all := All(es, n);
    if es == [] {
      assert all[..|all| - 1] == [];
      assert Upcase(CONTENT_LENGTH) == CONTENT_LENGTH;
      AtoiOfDecimal(n);
    } else {
      assert all[..|all| - 1] == All(es[..|es| - 1], n);
      HashedLength(es[..|es| - 1], n);
    }
  }

  lemma AtComma(p: Parser, part: string)
    requires p.phase == HeaderKey && p.body == [] && !p.done && |part| <= Length(p.hash)
    ensures var q := Consume(p, "," + part);
      && q.hash == p.hash && q.body == part
      && q.done == (|part| == Length(p.hash)) && q.phase == (if q.done then Done else InBody)
  {
    hide Length;
    assert ("," + part)[1..] == part;
    assert [] + part == part;
  }

  /** After the comma and some bytes of an `n`-byte body. */
  lemma ConsumeBody(es: seq<Entry>, n: nat, part: string)
    requires Clean(es) && NoLength(es) && |part| <= n
    ensures var p := Consume(FRESH, BeforeComma(es, n) + ("," + part));
      && p.hash == Hashed(map[], All(es, n)) && p.body == part
      && p.done == (|part| == n) && p.phase == (if p.done then Done else InBody)
  {
    hide Hashed, Length, Consume, BeforeComma;
    HashedLength(es, n);
    ConsumeHeaders(es, n, "," + part);
    AtComma(Headed(es, n), part);
  }

  lemma ConsumeHeaderPart(es: seq<Entry>, n: nat, k: nat)
    requires Clean(es) && NoLength(es) && k <= |BeforeComma(es, n)|
    ensures var p := Consume(FRESH, BeforeComma(es, n)[..k]); p.phase != Done && !p.done
  {
    hide Payload, Hashed, Decimal, Upcase, StepChar;
    var s, t := BeforeComma(es, n)[..k], BeforeComma(es, n)[k..];
    assert s + t == BeforeComma(es, n);
    ConsumeHeaders(es, n, []);
    assert BeforeComma(es, n) + [] == BeforeComma(es, n);
    NeverUndone(FRESH, s, t);
  }

  /** Done is final, and `done` says so. */
  lemma {:induction false} NeverUndone(p: Parser, s: string, t: string)
    requires p.done <==> p.phase == Done
    ensures Consume(p, s).done <==> Consume(p, s).phase == Done
    ensures Consume(p, s).phase == Done && t != [] ==> Consume(p, s + t).phase in {Done, InBody}
    ensures Consume(p, s).phase == Done && t == [] ==> Consume(p, s + t).phase == Done
    decreases |s|
  {
    if s == [] {
      assert s + t == t;
    } else {
      assert (s + t)[0] == s[0] && (s + t)[1..] == s[1..] + t;
      if p.phase != InBody && p.phase != Done
         && !(p.phase == HeaderKey && s[0] == ',' && Length(p.hash) != 0) {
        NeverUndone(StepChar(p, s[0]), s[1..], t);
      }
    }
  }

  lemma MessageParts(es: seq<Entry>, n: nat, body: string)
    ensures Message(es, n, body) == BeforeComma(es, n) + ("," + body)
  {}

  /** A prefix of a message leaves the parser waiting; the whole message completes it. */
  lemma ConsumePrefix(es: seq<Entry>, body: string, k: nat)
    requires Clean(es) && NoLength(es) && k <= |Message(es, |body|, body)|
    ensures var b := Message(es, |body|, body); var p := Consume(FRESH, b[..k]);
      && p.done == (k == |b|) && (p.phase == Done) == (k == |b|)
      && (k == |b| ==> p.body == body && p.hash == Hashed(map[], All(es, |body|)))
  {
    hide Consume, BeforeComma, Message, Hashed;
    var b, h := Message(es, |body|, body), BeforeComma(es, |body|);
    MessageParts(es, |body|, body);
    if k <= |h| {
      assert b[..k] == h[..k];
      ConsumeHeaderPart(es, |body|, k);
    } else {
      var part := body[..k - |h| - 1];
      assert b[..k] == h + ("," + part);
      ConsumeBody(es, |body|, part);
      if k == |b| { assert part == body; }
    }
  }

  // ----- any number of chunks -----

  function ConsumeAll(chunks: seq<string>): Parser {
    if chunks == [] then FRESH else Consume(ConsumeAll(chunks[..|chunks| - 1]), chunks[|chunks| - 1])
  }

  /**
   * However a message is cut into chunks: the parser is done exactly when the last byte is in, and then it
   * holds the body and the headers, a later header having replaced an earlier one of the same name.
   */
  lemma {:induction false} AnySplit(es: seq<Entry>, body: string, chunks: seq<string>)
    requires Clean(es) && NoLength(es) && Flatten(chunks) <= Message(es, |body|, body)
    ensures var b := Message(es, |body|, body); var p := ConsumeAll(chunks);
      && p.done == (Flatten(chunks) == b)
      && (Flatten(chunks) == b ==> p.body == body && p.hash == Hashed(map[], All(es, |body|)))
    ensures ConsumeAll(chunks) == Consume(FRESH, Flatten(chunks))
  {
    hide Consume, Message, Hashed;
    var b, s := Message(es, |body|, body), Flatten(chunks);
    assert b[..|s|] == s;
    assert |s| == |b| ==> s == b;
    ConsumePrefix(es, body, |s|);
    if chunks == [] {
      ConsumeNothing(FRESH);
    } else {
      var r, t := chunks[..|chunks| - 1], chunks[|chunks| - 1];
      assert Flatten(r) == s[..|Flatten(r)|] == b[..|Flatten(r)|];
      AnySplit(es, body, r);
      ConsumePrefix(es, body, |Flatten(r)|);
      if |Flatten(r)| < |b| {
        SplitAnywhere(FRESH, Flatten(r), t);
      } else {
        assert t == [] && s == Flatten(r);
        ConsumeNothing(ConsumeAll(r));
      }
    }
  }

  lemma ConsumeNothing(p: Parser)
    ensures Consume(p, []) == p
  {}

  // ----- what any bytes are read as -----

  /** A byte in front of the colon that is no digit: the parser refuses everything from then on. */
  lemma RubyRefuses(digits: string, c: char, rest: string)
    requires forall i :: 0 <= i < |digits| ==> '0' <= digits[i] <= '9'
    requires c != ':' && !('0' <= c <= '9')
    ensures var p := Consume(FRESH, digits + ([c] + rest)); p.phase == Invalid && !p.done && p.hash == map[] && p.body == []
  {
    hide Consume;
    DigitRun(FRESH, digits, [c] + rest);
    assert [] + digits == digits;
    ConsumeChar(FRESH.(tmp := digits), c, rest);
    InvalidForGood(FRESH.(tmp := digits, phase := Invalid), rest);
  }

  lemma {:induction false} InvalidForGood(p: Parser, s: string)
    requires p.phase == Invalid
    ensures Consume(p, s) == p
    decreases |s|
  {
    if s != [] { InvalidForGood(p, s[1..]); }
  }

  /**
   * Digits, a colon, headers, perhaps a piece of a name, a comma, and the rest: the headers are kept, the
   * rest is the body if its length is announced, and it is all there if it is as long as that.
   */
  lemma RubyReads(digits: string, es: seq<Entry>, junk: string, rest: string)
    requires (forall i :: 0 <= i < |digits| ==> '0' <= digits[i] <= '9') && Clean(es) && NUL !in junk && ',' !in junk
    ensures var p := Consume(FRESH, digits + ":" + Encode(es) + junk + "," + rest);
      && p.hash == Hashed(map[], es)
      && if Length(p.hash) == 0 then p.done && p.body == [] else p.body == rest && p.done == (|rest| == Length(p.hash))
  {
    hide Consume, Encode, Hashed, Atoi, Length;
    var t := junk + ("," + rest);
    FourParts(digits, Encode(es), junk, rest);
    DigitRun(FRESH, digits, [':'] + (Encode(es) + t));
    assert [] + digits == digits;
    ConsumeChar(FRESH.(tmp := digits), ':', Encode(es) + t);
    var p := FRESH.(tmp := digits, headersLength := Atoi(digits), phase := HeaderKey);
    ConsumeBlock(p, es, t);
    var q := p.(hash := Hashed(map[], es));
    KeyRun(q, junk, "," + rest);
    CommaThenRest(q.(key := q.key + junk), rest);
  }

  lemma FourParts(d: string, h: string, j: string, r: string)
    ensures d + ":" + h + j + "," + r == d + ([':'] + (h + (j + ("," + r))))
  {}

  lemma CommaThenRest(p: Parser, rest: string)
    requires p.phase == HeaderKey && p.body == [] && !p.done
    ensures var q := Consume(p, "," + rest);
      && q.hash == p.hash
      && if Length(p.hash) == 0 then q.done && q.body == [] else q.body == rest && q.done == (|rest| == Length(p.hash))
  {
    hide Length;
    assert ("," + rest)[1..] == rest && [] + rest == rest;
    if Length(p.hash) == 0 {
      DoneForGood(StepChar(p, ','), rest);
    }
  }

  lemma {:induction false} DoneForGood(p: Parser, s: string)
    requires p.phase == Done && p.done
    ensures Consume(p, s) == p
    decreases |s|
  {}

  // ----- the two implementations agree -----

  ghost predicate UpperNames(es: seq<Entry>) {
    forall i :: 0 <= i < |es| ==> NoLower(es[i].name)
  }

  function Get(hash: map<string, string>, name: string): Option<string> {
    if name in hash then Some(hash[name]) else None
  }

  lemma {:induction false} HashedIsLast(es: seq<Entry>, name: string)
    requires Clean(es) && UpperNames(es)
    ensures Get(Hashed(map[], es), name) == LastValue(es, name)
  {
    if es != [] {
      UpcaseIs(es[|es| - 1].name);
      HashedIsLast(es[..|es| - 1], name);
    }
  }

  /**
   * A message with upper-case names and no CONTENT_LENGTH of its own, cut into any chunks for the Ruby parser:
   * every header lookup gives the same answer as in the C parser; the bodies agree as well unless the
   * body is a single byte, which only the Ruby parser keeps.
   */
  lemma ParsersAgree(es: seq<Entry>, body: string, chunks: seq<string>, name: string)
    requires Clean(es) && UpperNames(es) && NoLength(es) && Flatten(chunks) == Message(es, |body|, body)
    ensures var b, p := Message(es, |body|, body), ConsumeAll(chunks);
      && p.done && Parse(b).Some? && InRange(b, Parse(b).value.list)
      && Lookup(Texts(b, Parse(b).value.list), name) == Get(p.hash, name)
      && (Parse(b).value.body == p.body <==> |body| != 1)
  {
    hide Message, Hashed, Texts, Consume, Lookup, LastValue, Reverse, Upcase, Decimal;
    var b, all := Message(es, |body|, body), All(es, |body|);
    AnySplit(es, body, chunks);
    UpperAll(es, |body|);
    HashedIsLast(all, name);
    LookupReversed(all, name);
    AnyBodyReadsBack(es, |body|, body);
  }

  lemma UpperAll(es: seq<Entry>, n: nat)
    requires Clean(es) && UpperNames(es)
    ensures Clean(All(es, n)) && UpperNames(All(es, n))
  {
    DigitsAreClean(n);
    assert NoLower(CONTENT_LENGTH);
  }

  /** The C parser's header list does not depend on the body; the body is lost if it is a single byte. */
  lemma AnyBodyReadsBack(es: seq<Entry>, n: nat, body: string)
    requires Clean(es)
    ensures var b := Message(es, n, body);
      && Parse(b).Some? && InRange(b, Parse(b).value.list)
      && Texts(b, Parse(b).value.list) == Reverse(All(es, n))
      && Parse(b).value.body == if |body| == 1 then [] else body
  {
    hide Scan, SlotsAt, Message, Payload, Encode, At, NextStop, AfterColon, Texts, Reverse, LengthEntry;
    var b, d, all := Message(es, n, body), Decimal(|Payload(es, n)|), All(es, n);
    Layout(es, n, body);
    DigitsAreClean(n);
    ScanBlock(b, |d| + 1, all, []);
    ScanEnds(b, |d| + 1 + |Payload(es, n)|, SlotsAt(|d| + 1, all));
    assert SlotsAt(|d| + 1, all) + [] == SlotsAt(|d| + 1, all);
  }

  // ----- the class -----

  const SCGI_ENTRY := Entry("SCGI", Some("0"))

  /** `es` lists the pairs of a hash whose keys are not in `rest`, in some order. */
  ghost predicate Listed(es: seq<Entry>, hash: map<string, string>, rest: set<string>) {
    && rest <= hash.Keys
    && (forall i :: 0 <= i < |es| ==> es[i].value.Some? && es[i].name in hash && hash[es[i].name] == es[i].value.value)
    && (forall i, j :: 0 <= i < j < |es| ==> es[i].name != es[j].name)
    && (forall k <- hash :: k !in rest <==> exists i :: 0 <= i < |es| && es[i].name == k)
  }

  ghost predicate Lists(es: seq<Entry>, hash: map<string, string>) {
    Listed(es, hash, {})
  }

  lemma ListNone(hash: map<string, string>)
    ensures Listed([], hash, hash.Keys)
  {}

  lemma ListOneMore(es: seq<Entry>, hash: map<string, string>, rest: set<string>, key: string)
    requires Listed(es, hash, rest) && key in rest
    ensures Listed(es + [Entry(key, Some(hash[key]))], hash, rest - {key})
  {
    var es' := es + [Entry(key, Some(hash[key]))];
    forall k <- hash ensures k !in rest - {key} <==> exists i :: 0 <= i < |es'| && es'[i].name == k {
      if k == key {
        assert es'[|es|].name == k;
      } else if k !in rest {
        var i :| 0 <= i < |es| && es[i].name == k;
        assert es'[i].name == k;
      }
    }
  }

  class SCGI {
    var hash: map<string, string>
    var request: string
    var body: string
    var tmpHeadersLength: string
    var headersLength: nat
    var currState: Phase
    var currKey: string
    var currValue: string
    var done: bool

    ghost function State(): Parser
      reads this
    {
      Parser(currState, tmpHeadersLength, headersLength, currKey, currValue, hash, body, done)
    }

    constructor ()
      ensures State() == FRESH
    {
      hash, body, request := map[], [], [];
      tmpHeadersLength, headersLength := [], 0;
      currState, currKey, currValue, done := NoState, [], [], false;
    }

    method HeaderAdd(key: string, value: string)
      modifies this`hash
      ensures hash == old(hash)[Upcase(key) := value]
      ensures exists k :: Capitals(key, k) && hash == old(hash)[k := value]
    {
      UpcaseIs(key);
      hash := hash[Upcase(key) := value];
    }

    method BodyAdd(s: string)
      modifies this`body
      ensures body == old(body) + s
    {
      body := body + s;
    }

    /** build: the hash is walked in whatever order the interpreter keeps. */
    method Build() returns (ghost es: seq<Entry>)
      modifies this`request
      ensures Lists(es, hash) && request == Message([SCGI_ENTRY] + es, |body|, body)
    {
      hide Listed, EncodeEntry;
      ListNone(hash);
      request := EncodeEntry(LengthEntry(if body == [] then 0 else |body|));
      request := request + EncodeEntry(SCGI_ENTRY);
      es := [];
      EncodeCons(SCGI_ENTRY, []);
      var rest := hash.Keys;
      while rest != {}
        invariant rest <= hash.Keys && Listed(es, hash, rest)
        invariant request == Payload([SCGI_ENTRY] + es, |body|)
        decreases |rest|
      {
        var key :| key in rest;
        var e := Entry(key, Some(hash[key]));
        WriteEntry([SCGI_ENTRY] + es, e, |body|);
        request := request + EncodeEntry(e);
        assert [SCGI_ENTRY] + (es + [e]) == [SCGI_ENTRY] + es + [e];
        ListOneMore(es, hash, rest, key);
        es := es + [e];
        rest := rest - {key};
      }
      request := Decimal(|request|) + ":" + request;
      request := request + "," + body;
      MessageParts([SCGI_ENTRY] + es, |body|, body);
    }

    /** parse: one call per chunk. */
    method Parse(req: string)
      modifies this
      ensures State() == Consume(old(State()), req) && request == old(request)
    {
      hide Length, Upcase;
      var index := 0;
      while index < |req|
        invariant 0 <= index <= |req| && request == old(request)
        invariant Consume(State(), req[index..]) == Consume(old(State()), req)
      {
        var c := req[index];
        var rest := req[index + 1..];
        assert req[index..][0] == c && req[index..][1..] == rest;
        match currState {
          case NoState =>
            if c == ':' {
              headersLength := Atoi(tmpHeadersLength);
              currState := HeaderKey;
            } else if c < '0' || c > '9' {
              currState := Invalid;
            } else {
              tmpHeadersLength := tmpHeadersLength + [c];
            }
          case HeaderKey =>
            if c == NUL {
              currState := HeaderVal;
            } else if c == ',' {
              if Length(hash) == 0 {
                done := true;
                currState := Done;
              } else {
                currState := InBody;
                BodyAdd(rest);
                if |body| == Length(hash) {
                  currState := Done;
                  done := true;
                } else {
                  currState := InBody;
                }
                break;
              }
            } else {
              currKey := currKey + [c];
            }
          case HeaderVal =>
            if c == NUL {
              HeaderAdd(currKey, currValue);
              currKey := [];
              currValue := [];
              currState := HeaderKey;
            } else {
              currValue := currValue + [c];
            }
          case InBody =>
            BodyAdd(req[index..]);
            if |body| == Length(hash) {
              currState := Done;
              done := true;
            }
            break;
          case Done =>
            done := true;
            return;
          case Invalid =>
        }
        index := index + 1;
      }
    }
  }

  lemma WriteEntry(es: seq<Entry>, e: Entry, n: nat)
    ensures Payload(es + [e], n) == Payload(es, n) + EncodeEntry(e)
  {
    assert (es + [e])[..|es|] == es;
  }

  /** The pairs a caller may add and get back unchanged: upper-cased by header_add, free of delimiters. */
  ghost predicate Safe(hash: map<string, string>) {
    forall k <- hash :: NoLower(k) && k != CONTENT_LENGTH && NUL !in k && ',' !in k && NUL !in hash[k]
  }

  lemma DropLast(es: seq<Entry>, hash: map<string, string>)
    requires Lists(es, hash) && es != []
    ensures var q, e := es[..|es| - 1], es[|es| - 1];
      e.value.Some? && Lists(q, hash - {e.name}) && hash == (hash - {e.name})[e.name := e.value.value]
  {
    var q, e := es[..|es| - 1], es[|es| - 1];
    forall k <- hash - {e.name} ensures exists i :: 0 <= i < |q| && q[i].name == k {
      var i :| 0 <= i < |es| && es[i].name == k;
      assert q[i].name == k;
    }
  }

  lemma {:induction false} HashedLists(es: seq<Entry>, base: map<string, string>, hash: map<string, string>)
    requires Clean(es) && UpperNames(es) && Lists(es, hash)
    ensures Hashed(base, es) == base + hash
  {
    hide Upcase, Lists;
    if es == [] {
      NothingListed(hash);
    } else {
      UpcaseIs(es[|es| - 1].name);
      DropLast(es, hash);
      HashedLists(es[..|es| - 1], base, hash - {es[|es| - 1].name});
    }
  }

  lemma NothingListed(hash: map<string, string>)
    requires Lists([], hash)
    ensures hash == map[]
  {}

  lemma {:induction false} HashedCons(hash: map<string, string>, e: Entry, es: seq<Entry>)
    requires CleanEntry(e) && Clean(es) && Clean([e] + es)
    ensures Hashed(hash, [e] + es) == Hashed(hash[Upcase(e.name) := e.value.value], es)
  {
    var all := [e] + es;
    if es == [] {
      assert all[..|all| - 1] == [];
    } else {
      assert all[..|all| - 1] == [e] + es[..|es| - 1];
      HashedCons(hash, e, es[..|es| - 1]);
    }
  }

  /**
   * What `Build` writes for a hash without its own CONTENT_LENGTH, cut into any chunks, is read back:
   * done at the last byte and not before, the same body, and the caller's pairs on top of the two
   * that the builder adds.
   */
  lemma RubyRoundTrip(hash: map<string, string>, es: seq<Entry>, body: string, chunks: seq<string>)
    requires Safe(hash) && Lists(es, hash)
    requires Flatten(chunks) <= Message([SCGI_ENTRY] + es, |body|, body)
    ensures var p, whole := ConsumeAll(chunks), Flatten(chunks) == Message([SCGI_ENTRY] + es, |body|, body);
      && p.done == whole
      && (whole ==> p.body == body && p.hash == map[CONTENT_LENGTH := Decimal(|body|), "SCGI" := "0"] + hash)
  {
    hide Message, Consume, Flatten, ConsumeAll, Decimal;
    var all := [SCGI_ENTRY] + es;
    assert Upcase("SCGI") == "SCGI" && Upcase(CONTENT_LENGTH) == CONTENT_LENGTH;
    forall i | 0 <= i < |es| ensures Upcase(es[i].name) == es[i].name { UpcaseIs(es[i].name); }
    assert Clean(es) && UpperNames(es) && NoLength(es);
    AnySplit(all, body, chunks);
    DigitsAreClean(|body|);
    HashedCons(map[], LengthEntry(|body|), all);
    HashedCons(map[CONTENT_LENGTH := Decimal(|body|)], SCGI_ENTRY, es);
    HashedLists(es, map[CONTENT_LENGTH := Decimal(|body|), "SCGI" := "0"], hash);
  }
}
