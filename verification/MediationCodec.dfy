/** What crosses the controller: the adapter payload, the message ID, the JSON body, and the
    configuration that has to leave room for them. */
module MediationCodec {
  import opened Wrappers

  type Byte = x: int | 0 <= x < 256

  // ---------------------------------------------------------------- the adapter payload

  const ADAPTER_VERSION: Byte := 1
  const ADAPTER_HEADER: nat := 6
  const MAX_UINT32: int := 0xFFFF_FFFF

  function BigEndian(n: int): seq<Byte>
    requires 0 <= n <= MAX_UINT32
  {
    [n / 0x100_0000, n / 0x1_0000 % 0x100, n / 0x100 % 0x100, n % 0x100]
  }

  function FromBigEndian(b: seq<Byte>): int
    requires |b| == 4
  {
    b[0] as int * 0x100_0000 + b[1] as int * 0x1_0000 + b[2] as int * 0x100 + b[3]
  }

  function EncodeAdapter(channel: Byte, wrapped: seq<Byte>): Result<seq<Byte>> {
    if |wrapped| > MAX_UINT32 then Err
    else Ok([ADAPTER_VERSION, channel] + BigEndian(|wrapped|) + wrapped)
  }

  function DecodeAdapter(data: seq<Byte>): Result<(Byte, seq<Byte>)> {
    if |data| < ADAPTER_HEADER || data[0] != ADAPTER_VERSION then Err
    else if FromBigEndian(data[2..6]) != |data| - ADAPTER_HEADER then Err
    else Ok((data[1], data[6..]))
  }

  lemma BigEndianRoundTrip(n: int)
    requires 0 <= n <= MAX_UINT32
    ensures FromBigEndian(BigEndian(n)) == n
  {
    var a, b := n / 0x100, n / 0x1_0000;
    assert n == a * 0x100 + n % 0x100;
    assert b == a / 0x100 && a == b * 0x100 + a % 0x100;
    assert n / 0x100_0000 == b / 0x100 && b == b / 0x100 * 0x100 + b % 0x100;
  }

  lemma BigEndianUnique(b: seq<Byte>)
    requires |b| == 4
    ensures 0 <= FromBigEndian(b) <= MAX_UINT32 && BigEndian(FromBigEndian(b)) == b
  {
    var n := FromBigEndian(b);
    var high: int, mid: int := b[0] as int * 0x1_0000 + b[1] as int * 0x100 + b[2], b[0] as int * 0x100 + b[1];
    assert n == high * 0x100 + b[3] && high == mid * 0x100 + b[2];
    assert n / 0x100 == high && n % 0x100 == b[3];
    assert high / 0x100 == mid && high % 0x100 == b[2];
    assert n / 0x1_0000 == mid && n / 0x100_0000 == b[0];
    assert mid % 0x100 == b[1];
  }

  /** Decoding undoes encoding wherever encoding is possible. */
  lemma DecodeUndoesEncode(channel: Byte, wrapped: seq<Byte>)
    ensures EncodeAdapter(channel, wrapped).Ok? <==> |wrapped| <= MAX_UINT32
    ensures EncodeAdapter(channel, wrapped).Ok? ==>
              DecodeAdapter(EncodeAdapter(channel, wrapped).value) == Ok((channel, wrapped))
  {
    if |wrapped| <= MAX_UINT32 {
      hide BigEndian, FromBigEndian;
      var data := EncodeAdapter(channel, wrapped).value;
      BigEndianLength(|wrapped|);
      assert data[2..6] == BigEndian(|wrapped|) && data[6..] == wrapped;
      BigEndianRoundTrip(|wrapped|);
    }
  }

  lemma BigEndianLength(n: int)
    requires 0 <= n <= MAX_UINT32
    ensures |BigEndian(n)| == 4
  {
  }

  /** Encoding undoes decoding on every payload the decoder accepts: there is one form only. */
  lemma EncodeUndoesDecode(data: seq<Byte>)
    requires DecodeAdapter(data).Ok?
    ensures
      var (channel, wrapped) := DecodeAdapter(data).value;
      EncodeAdapter(channel, wrapped) == Ok(data)
  {
    hide BigEndian, FromBigEndian;
    BigEndianUnique(data[2..6]);
    BigEndianLength(|data| - ADAPTER_HEADER);
    assert data == [data[0], data[1]] + data[2..6] + data[6..];
  }

  // ---------------------------------------------------------------- decimal counters

  const MAX_UINT64: int := 0xFFFF_FFFF_FFFF_FFFF

  predicate IsDigit(c: char) {
    '0' <= c <= '9'
  }

  function DigitChar(d: int): char
    requires 0 <= d < 10
  {
    '0' + d as char
  }

  function DigitValue(c: char): (d: nat)
    requires IsDigit(c)
    ensures d < 10
  {
    c as int - '0' as int
  }

  function Decimal(n: nat): string {
    if n < 10 then [DigitChar(n)] else Decimal(n / 10) + [DigitChar(n % 10)]
  }

  function ValueOf(s: string): nat
    requires forall i :: 0 <= i < |s| ==> IsDigit(s[i])
  {
    if s == [] then 0 else ValueOf(s[..|s| - 1]) * 10 + DigitValue(s[|s| - 1])
  }

  /** Base ten, 64 bits, no sign. */
  function ParseUint(s: string): Option<nat> {
    if s == [] || exists i :: 0 <= i < |s| && !IsDigit(s[i]) then None
    else if ValueOf(s) > MAX_UINT64 then None
    else Some(ValueOf(s))
  }

  lemma {:induction false} DecimalDigits(n: nat)
    ensures |Decimal(n)| > 0 && (forall i :: 0 <= i < |Decimal(n)| ==> IsDigit(Decimal(n)[i]))
    ensures ValueOf(Decimal(n)) == n
  {
    if n < 10 {
      assert Decimal(n)[..0] == [];
      assert ValueOf([DigitChar(n)]) == ValueOf([]) * 10 + n;
    } else {
      DecimalDigits(n / 10);
      var s := Decimal(n);
      assert s[..|s| - 1] == Decimal(n / 10);
    }
  }

  function Pow10(k: nat): nat {
    if k == 0 then 1 else 10 * Pow10(k - 1)
  }

  lemma {:induction false} DecimalLength(n: nat, k: nat)
    requires k >= 1 && n < Pow10(k)
    ensures |Decimal(n)| <= k
  {
    if n >= 10 {
      assert k >= 2;
      DecimalLength(n / 10, k - 1);
    }
  }

  lemma TwentyDigits()
    ensures MAX_UINT64 < Pow10(20)
  {
    assert Pow10(5) == 100_000;
    assert Pow10(10) == 10_000_000_000;
    assert Pow10(15) == 1_000_000_000_000_000;
    assert Pow10(20) == 100_000_000_000_000_000_000;
  }

  // ---------------------------------------------------------------- identities and message IDs

  const ID_LENGTH: nat := 40
  const MAX_ID_BYTES: nat := 128

  predicate IsHex(c: char) {
    '0' <= c <= '9' || 'a' <= c <= 'f' || 'A' <= c <= 'F'
  }

  predicate ValidIdentity(s: string) {
    |s| == ID_LENGTH && forall i :: 0 <= i < |s| ==> IsHex(s[i])
  }

  function MessageID(from: string, to: string, n: nat): string {
    from + "_" + to + "_" + Decimal(n)
  }

  /** The counter of an ID the receiver accepts. */
  function CheckMessageID(id: string, from: string, to: string): Option<nat> {
    var prefix := from + "_" + to + "_";
    if id == "" || |id| > MAX_ID_BYTES || !(prefix <= id) then None else ParseUint(id[|prefix|..])
  }

  /** Every minted ID is accepted by the receiver, which reads back its counter. */
  lemma MintedIDAccepted(from: string, to: string, n: nat)
    requires ValidIdentity(from) && ValidIdentity(to) && n <= MAX_UINT64
    ensures CheckMessageID(MessageID(from, to, n), from, to) == Some(n)
    ensures |MessageID(from, to, n)| <= 102
  {
    hide IsHex, Pow10;
    var prefix, id := from + "_" + to + "_", MessageID(from, to, n);
    TwentyDigits();
    DecimalLength(n, 20);
    DecimalDigits(n);
    assert id == prefix + Decimal(n);
    assert id[|prefix|..] == Decimal(n);
  }

  /** An ID is accepted exactly if it names sender and receiver, ends in a decimal number of 64 bits and is
      not too long; leading zeros do not matter. */
  lemma CheckedIDs(from: string, to: string, rest: string, id: string)
    ensures
      CheckMessageID(from + "_" + to + "_" + rest, from, to)
      == if |from| + |to| + 2 + |rest| <= 128 && rest != "" && (forall i :: 0 <= i < |rest| ==> IsDigit(rest[i]))
            && ValueOf(rest) <= 0xFFFF_FFFF_FFFF_FFFF
         then Some(ValueOf(rest)) else None
    ensures CheckMessageID(id, from, to).Some? ==> from + "_" + to + "_" <= id
  {
    hide ValueOf, IsDigit;
    var prefix := from + "_" + to + "_";
    assert (prefix + rest)[|prefix|..] == rest;
  }

  /** Different messages have different IDs. */
  lemma IDsAreUnique(from: string, to: string, n: nat, from': string, to': string, n': nat)
    requires ValidIdentity(from) && ValidIdentity(to) && ValidIdentity(from') && ValidIdentity(to')
    requires n <= MAX_UINT64 && n' <= MAX_UINT64 && MessageID(from, to, n) == MessageID(from', to', n')
    ensures from == from' && to == to' && n == n'
  {
    hide IsHex, Decimal, ParseUint;
    var id := MessageID(from, to, n);
    assert from == id[..40] && from' == id[..40];
    assert to == id[41..81] && to' == id[41..81];
    MintedIDAccepted(from, to, n);
    MintedIDAccepted(from', to', n');
  }

  // ---------------------------------------------------------------- the JSON body

  /** The alphabet of section 4 of RFC 4648. */
  function Base64Char(v: int): char
    requires 0 <= v < 64
  {
    if v < 26 then 'A' + v as char
    else if v < 52 then 'a' + (v - 26) as char
    else if v < 62 then '0' + (v - 52) as char
    else if v == 62 then '+' else '/'
  }

  /** Three bytes as four values of six bits. */
  function Six1(x: Byte): (v: int)
    ensures 0 <= v < 64
  {
    x / 4
  }

  function Six2(x: Byte, y: Byte): (v: int)
    ensures 0 <= v < 64
  {
    x % 4 * 16 + y / 16
  }

  function Six3(y: Byte, z: Byte): (v: int)
    ensures 0 <= v < 64
  {
    y % 16 * 4 + z / 64
  }

  function Six4(z: Byte): (v: int)
    ensures 0 <= v < 64
  {
    z % 64
  }

  /** Three bytes give four characters; a shorter rest is filled with zero bits and padded. */
  function Base64(data: seq<Byte>): string {
    if |data| == 0 then ""
    else if |data| == 1 then [Base64Char(Six1(data[0])), Base64Char(Six2(data[0], 0)), '=', '=']
    else if |data| == 2 then
      [Base64Char(Six1(data[0])), Base64Char(Six2(data[0], data[1])), Base64Char(Six3(data[1], 0)), '=']
    else
      [Base64Char(Six1(data[0])), Base64Char(Six2(data[0], data[1])), Base64Char(Six3(data[1], data[2])),
       Base64Char(Six4(data[2]))] + Base64(data[3..])
  }

  function EncodedLen(n: nat): nat {
    (n + 2) / 3 * 4
  }

  lemma {:induction false} Base64Length(data: seq<Byte>)
    ensures |Base64(data)| == EncodedLen(|data|)
  {
    hide Base64Char;
    if |data| >= 3 {
      Base64Length(data[3..]);
      assert (|data| + 2) / 3 == (|data| - 3 + 2) / 3 + 1;
    }
  }

  /** The value of a character of the alphabet. */
  function Base64Value(c: char): Option<int> {
    if 'A' <= c <= 'Z' then Some((c - 'A') as int)
    else if 'a' <= c <= 'z' then Some((c - 'a') as int + 26)
    else if '0' <= c <= '9' then Some((c - '0') as int + 52)
    else if c == '+' then Some(62) else if c == '/' then Some(63) else None
  }

  /** The bytes that four values of six bits make up. */
  function FirstByte(a: int, b: int): Byte {
    (a * 4 + b / 16) % 256
  }

  function SecondByte(b: int, c: int): Byte {
    (b % 16 * 16 + c / 4) % 256
  }

  function ThirdByte(c: int, d: int): Byte {
    (c % 4 * 64 + d) % 256
  }

  /** Decoding as the RFC describes it: four characters give three bytes, less one for each pad at the end. */
  function Unbase64(s: string): Option<seq<Byte>> {
    if s == "" then Some([])
    else if |s| < 4 then None
    else
      var a, b, c, d := Base64Value(s[0]), Base64Value(s[1]), Base64Value(s[2]), Base64Value(s[3]);
      if a.None? || b.None? then None
      else if |s| == 4 && s[2] == '=' && s[3] == '=' then Some([FirstByte(a.value, b.value)])
      else if c.None? then None
      else if |s| == 4 && s[3] == '=' then Some([FirstByte(a.value, b.value), SecondByte(b.value, c.value)])
      else if d.None? || Unbase64(s[4..]).None? then None
      else Some([FirstByte(a.value, b.value), SecondByte(b.value, c.value), ThirdByte(c.value, d.value)] + Unbase64(s[4..]).value)
  }

  lemma ValueOfChar(v: int)
    requires 0 <= v < 64
    ensures Base64Value(Base64Char(v)) == Some(v) && Base64Char(v) != '='
  {
  }

  lemma By16(p: nat, q: nat)
    requires q < 16
    ensures (p * 16 + q) / 16 == p && (p * 16 + q) % 16 == q
  {
  }

  lemma By4(p: nat, q: nat)
    requires q < 4
    ensures (p * 4 + q) / 4 == p && (p * 4 + q) % 4 == q
  {
  }

  lemma FirstFromSixes(x: Byte, y: Byte)
    ensures FirstByte(Six1(x), Six2(x, y)) == x
  {
    By16(x % 4, y / 16);
  }

  lemma SecondFromSixes(x: Byte, y: Byte, z: Byte)
    ensures SecondByte(Six2(x, y), Six3(y, z)) == y
  {
    By16(x % 4, y / 16);
    By4(y % 16, z / 64);
    assert SecondByte(Six2(x, y), Six3(y, z)) == (y / 16 * 16 + y % 16) % 256;
  }

  lemma ThirdFromSixes(y: Byte, z: Byte)
    ensures ThirdByte(Six3(y, z), Six4(z)) == z
  {
    By4(y % 16, z / 64);
  }

  lemma NoneRoundTrip()
    ensures Unbase64(Base64([])) == Some([])
  {
  }

  lemma OneRoundTrip(x: Byte)
    ensures Unbase64(Base64([x])) == Some([x])
  {
    hide Base64Char, Base64Value, FirstByte, SecondByte, ThirdByte, Six1, Six2, Six3, Six4;
    ValueOfChar(Six1(x));
    ValueOfChar(Six2(x, 0));
    FirstFromSixes(x, 0);
  }

  lemma TwoRoundTrip(x: Byte, y: Byte)
    ensures Unbase64(Base64([x, y])) == Some([x, y])
  {
    hide Base64Char, Base64Value, FirstByte, SecondByte, ThirdByte, Six1, Six2, Six3, Six4;
    ValueOfChar(Six1(x));
    ValueOfChar(Six2(x, y));
    ValueOfChar(Six3(y, 0));
    FirstFromSixes(x, y);
    SecondFromSixes(x, y, 0);
  }

  /** Decoding gives back the bytes. */
  lemma {:induction false} Base64RoundTrip(data: seq<Byte>)
    ensures Unbase64(Base64(data)) == Some(data)
  {
    hide Unbase64, Base64;
    if data == [] {
      NoneRoundTrip();
    } else if |data| == 1 {
      OneRoundTrip(data[0]);
      assert data == [data[0]];
    } else if |data| == 2 {
      TwoRoundTrip(data[0], data[1]);
      assert data == [data[0], data[1]];
    } else {
      GroupRoundTrip(data);
      Base64RoundTrip(data[3..]);
      assert data == [data[0], data[1], data[2]] + data[3..];
    }
  }

  lemma DecodesGroup(s: string, a: int, b: int, c: int, d: int)
    requires |s| >= 4 && Base64Value(s[0]) == Some(a) && Base64Value(s[1]) == Some(b)
    requires Base64Value(s[2]) == Some(c) && Base64Value(s[3]) == Some(d) && s[2] != '=' && s[3] != '='
    ensures
      var rest := Unbase64(s[4..]);
      Unbase64(s) == if rest.None? then None else Some([FirstByte(a, b), SecondByte(b, c), ThirdByte(c, d)] + rest.value)
  {
    hide Base64Value, FirstByte, SecondByte, ThirdByte;
  }

  lemma GroupRoundTrip(data: seq<Byte>)
    requires |data| >= 3
    ensures
      var rest := Unbase64(Base64(data[3..]));
      Unbase64(Base64(data)) == if rest.None? then None else Some([data[0], data[1], data[2]] + rest.value)
  {
    hide Base64Char, Base64Value, FirstByte, SecondByte, ThirdByte, Unbase64, Six1, Six2, Six3, Six4;
    var x, y, z := data[0], data[1], data[2];
    FirstFromSixes(x, y);
    SecondFromSixes(x, y, z);
    ThirdFromSixes(y, z);
    ValueOfChar(Six1(x));
    ValueOfChar(Six2(x, y));
    ValueOfChar(Six3(y, z));
    ValueOfChar(Six4(z));
    assert Base64(data)[4..] == Base64(data[3..]);
    DecodesGroup(Base64(data), Six1(x), Six2(x, y), Six3(y, z), Six4(z));
  }

  /** Characters a JSON encoder writes as they are. */
  predicate Plain(c: char) {
    IsDigit(c) || 'a' <= c <= 'z' || 'A' <= c <= 'Z' || c == '_' || c == '+' || c == '/' || c == '='
  }

  predicate PlainText(s: string) {
    forall i :: 0 <= i < |s| ==> Plain(s[i])
  }

  lemma {:induction false} Base64IsPlain(data: seq<Byte>)
    ensures PlainText(Base64(data))
  {
    if |data| >= 3 {
      Base64IsPlain(data[3..]);
    }
  }

  datatype Message = Message(from: string, to: string, data: seq<Byte>, kind: string, id: string)

  predicate PlainMessage(m: Message) {
    PlainText(m.from) && PlainText(m.to) && PlainText(m.kind) && PlainText(m.id)
  }

  /** A field with its closing quote, before the rest of the body. */
  function Entry(name: string, text: string, rest: string): string {
    name + (text + "\"" + rest)
  }

  /** The encoding of a message none of whose fields needs escaping. */
  function JsonBody(m: Message): string
    requires PlainMessage(m)
  {
    Entry("{\"From\":\"", m.from,
      Entry(",\"To\":\"", m.to,
        Entry(",\"Data\":\"", Base64(m.data), Entry(",\"Type\":\"", m.kind, Entry(",\"ID\":\"", m.id, "}")))))
  }

  /** The text up to the closing quote, and what follows it. */
  function Quoted(s: string): Option<(string, string)> {
    if s == "" then None
    else if s[0] == '"' then Some(("", s[1..]))
    else match Quoted(s[1..])
      case None => None
      case Some((text, rest)) => Some(([s[0]] + text, rest))
  }

  function Field(s: string, name: string): Option<(string, string)> {
    if name <= s then Quoted(s[|name|..]) else None
  }

  /** Reads a body of this form: its five fields in order. */
  function ReadBody(s: string): Option<Message> {
    var from := Field(s, "{\"From\":\"");
    if from.None? then None else
    var to := Field(from.value.1, ",\"To\":\"");
    if to.None? then None else
    var data := Field(to.value.1, ",\"Data\":\"");
    if data.None? || Unbase64(data.value.0).None? then None else
    var kind := Field(data.value.1, ",\"Type\":\"");
    if kind.None? then None else
    var id := Field(kind.value.1, ",\"ID\":\"");
    if id.None? || id.value.1 != "}" then None
    else Some(Message(from.value.0, to.value.0, Unbase64(data.value.0).value, kind.value.0, id.value.0))
  }

  lemma {:induction false} QuotedReads(text: string, rest: string)
    requires PlainText(text)
    ensures Quoted(text + "\"" + rest) == Some((text, rest))
  {
    var s := text + "\"" + rest;
    if text == "" {
      assert s[1..] == rest;
    } else {
      assert Plain(text[0]);
      assert s[1..] == text[1..] + "\"" + rest;
      QuotedReads(text[1..], rest);
      assert [text[0]] + text[1..] == text;
    }
  }

  lemma FieldReads(name: string, text: string, rest: string)
    requires PlainText(text)
    ensures Field(Entry(name, text, rest), name) == Some((text, rest))
  {
    hide PlainText, Quoted;
    QuotedReads(text, rest);
    assert Entry(name, text, rest)[|name|..] == text + "\"" + rest;
  }

  /** A body determines the message it was made of. */
  lemma BodyReadsBack(m: Message)
    requires PlainMessage(m)
    ensures ReadBody(JsonBody(m)) == Some(m)
  {
    hide PlainText, Field, Base64, Unbase64, Entry;
    Base64IsPlain(m.data);
    Base64RoundTrip(m.data);
    var s5 := Entry(",\"ID\":\"", m.id, "}");
    var s4 := Entry(",\"Type\":\"", m.kind, s5);
    var s3 := Entry(",\"Data\":\"", Base64(m.data), s4);
    var s2 := Entry(",\"To\":\"", m.to, s3);
    FieldReads("{\"From\":\"", m.from, s2);
    FieldReads(",\"To\":\"", m.to, s3);
    FieldReads(",\"Data\":\"", Base64(m.data), s4);
    FieldReads(",\"Type\":\"", m.kind, s5);
    FieldReads(",\"ID\":\"", m.id, "}");
  }

  // ---------------------------------------------------------------- configuration

  const MAX_NATIVE_PAYLOAD: nat := 16_000_000
  const JSON_OVERHEAD: nat := 512

  datatype MediationConfig = MediationConfig(
    enabled: bool, addressesOk: bool, nodeID: int,
    outboundCap: int, outboundBytes: int, callbackCap: int, callbackBytes: int, maxBodyBytes: int,
    counterCap: int, attempts: int,
    retryDelay: int, requestTimeout: int, sendTimeout: int, shutdownTimeout: int)

  predicate ValidateBasic(c: MediationConfig) {
    c.enabled ==>
      && c.addressesOk && c.nodeID >= 0
      && c.outboundCap > 0 && c.callbackCap > 0 && c.counterCap > 0 && c.attempts > 0
      && c.outboundBytes >= ADAPTER_HEADER + MAX_NATIVE_PAYLOAD
      && c.callbackBytes >= ADAPTER_HEADER + MAX_NATIVE_PAYLOAD
      && c.maxBodyBytes >= EncodedLen(ADAPTER_HEADER + MAX_NATIVE_PAYLOAD) + JSON_OVERHEAD
      && c.retryDelay > 0 && c.requestTimeout > 0 && c.sendTimeout > 0 && c.shutdownTimeout > 0
  }

  // ---------------------------------------------------------------- selected messages

  datatype Kind =
    | NewRoundStep | NewValidBlock | HasVote | HasProposalBlockPart | VoteSetMaj23
    | Proposal | ProposalPOL | BlockPart | Vote | VoteSetBits
    | SnapshotsRequest | SnapshotsResponse | ChunkRequest | ChunkResponse
    | Unselected

  /** The label and the route of a selected message. */
  function Binding(k: Kind): Option<(string, Byte)> {
    match k
    case NewRoundStep => Some(("NewRoundStep", 0x20))
    case NewValidBlock => Some(("NewValidBlock", 0x20))
    case HasVote => Some(("HasVote", 0x20))
    case HasProposalBlockPart => Some(("HasProposalBlockPart", 0x20))
    case VoteSetMaj23 => Some(("VoteSetMaj23", 0x20))
    case Proposal => Some(("Proposal", 0x21))
    case ProposalPOL => Some(("ProposalPOL", 0x21))
    case BlockPart => Some(("BlockPart", 0x21))
    case Vote => Some(("Vote", 0x22))
    case VoteSetBits => Some(("VoteSetBits", 0x23))
    case SnapshotsRequest => Some(("SnapshotsRequest", 0x60))
    case SnapshotsResponse => Some(("SnapshotsResponse", 0x60))
    case ChunkRequest => Some(("ChunkRequest", 0x61))
    case ChunkResponse => Some(("ChunkResponse", 0x61))
    case Unselected => None
  }

  predicate SelectedRoute(channel: Byte) {
    channel == 0x20 || channel == 0x21 || channel == 0x22 || channel == 0x23 || channel == 0x60 || channel == 0x61
  }

  lemma StepLabelsArePlain()
    ensures PlainText("NewRoundStep")
    ensures PlainText("NewValidBlock")
    ensures PlainText("HasVote")
    ensures PlainText("HasProposalBlockPart")
    ensures PlainText("VoteSetMaj23")
  {
  }

  lemma BlockLabelsArePlain()
    ensures PlainText("Proposal")
    ensures PlainText("ProposalPOL")
    ensures PlainText("BlockPart")
    ensures PlainText("Vote")
    ensures PlainText("VoteSetBits")
  {
  }

  lemma SyncLabelsArePlain()
    ensures PlainText("SnapshotsRequest")
    ensures PlainText("SnapshotsResponse")
    ensures PlainText("ChunkRequest")
    ensures PlainText("ChunkResponse")
  {
  }

  lemma BindingIsPlain(k: Kind)
    requires Binding(k).Some?
    ensures
      var (name, route) := Binding(k).value;
      0 < |name| <= 20 && PlainText(name) && SelectedRoute(route)
  {
    hide PlainText;
    StepLabelsArePlain();
    BlockLabelsArePlain();
    SyncLabelsArePlain();
  }

  /** Receive capacities by route; a missing route has none. */
  type Routes = map<Byte, nat>

  /** The message a submission puts into the queue once it has its counter. */
  function Submission(routes: Routes, from: string, to: string, k: Kind, channel: Byte, wrapped: seq<Byte>, n: nat): Result<Message> {
    var binding := Binding(k);
    if binding.None? || binding.value.1 != channel then Err
    else if channel !in routes || |wrapped| > routes[channel] then Err
    else match EncodeAdapter(channel, wrapped)
      case Err => Err
      case Ok(payload) => Ok(Message(from, to, payload, binding.value.0, MessageID(from, to, n)))
  }

  /** How a node decodes native bytes of a route, and whether it finds the message sound. */
  datatype Native = Native(decode: (Byte, seq<Byte>) -> Option<Kind>, sound: (Byte, seq<Byte>) -> bool)

  /** What a callback hands to the reactor: the route and the native bytes. */
  function Reception(c: MediationConfig, routes: Routes, native: Native, self: string, m: Message, bodyBytes: nat)
    : Result<(Byte, seq<Byte>)>
  {
    if bodyBytes > c.maxBodyBytes || m.to != self || !ValidIdentity(m.from) then Err
    else if CheckMessageID(m.id, m.from, m.to).None? || m.kind == "" then Err
    else match DecodeAdapter(m.data)
      case Err => Err
      case Ok((channel, wrapped)) =>
        if channel !in routes || !SelectedRoute(channel) || |wrapped| > routes[channel] then Err
        else match native.decode(channel, wrapped)
          case None => Err
          case Some(k) =>
            var binding := Binding(k);
            if binding.None? || binding.value.1 != channel || binding.value.0 != m.kind || !native.sound(channel, wrapped)
            then Err else Ok((channel, wrapped))
  }

  /** What is put into the queue: exactly for a selected message on its own route and within its capacity,
      with its label, its ID and the payload that decodes to the route and the bytes. */
  lemma SubmissionExactly(routes: Routes, from: string, to: string, k: Kind, channel: Byte, wrapped: seq<Byte>, n: nat)
    ensures
      var r := Submission(routes, from, to, k, channel, wrapped, n);
      && (r.Ok? <==> && Binding(k).Some? && Binding(k).value.1 == channel && channel in routes
                     && |wrapped| <= routes[channel] && |wrapped| <= 0xFFFF_FFFF)
      && (r.Ok? ==> && r.value == Message(from, to, r.value.data, Binding(k).value.0, from + "_" + to + "_" + Decimal(n))
                    && DecodeAdapter(r.value.data) == Ok((channel, wrapped)))
  {
    hide BigEndian, FromBigEndian, Binding, Decimal, DecodeAdapter;
    if |wrapped| <= MAX_UINT32 {
      DecodeUndoesEncode(channel, wrapped);
    }
  }

  /** What is handed to the reactor: exactly the bytes of a message to this node from a well-formed
      identity, within the body limit, with an ID that fits both, whose payload names a selected route and
      keeps to its capacity, and which decodes to a sound message of the label and route it claims. */
  lemma ReceptionExactly(c: MediationConfig, routes: Routes, native: Native, self: string, m: Message, bodyBytes: nat,
                         channel: Byte, wrapped: seq<Byte>)
    ensures
      Reception(c, routes, native, self, m, bodyBytes) == Ok((channel, wrapped)) <==>
      && bodyBytes <= c.maxBodyBytes && m.to == self && ValidIdentity(m.from) && CheckMessageID(m.id, m.from, m.to).Some?
      && EncodeAdapter(channel, wrapped) == Ok(m.data)
      && channel in routes && SelectedRoute(channel) && |wrapped| <= routes[channel]
      && native.decode(channel, wrapped).Some? && native.sound(channel, wrapped)
      && Binding(native.decode(channel, wrapped).value) == Some((m.kind, channel)) && m.kind != ""
  {
    hide ValidIdentity, CheckMessageID, SelectedRoute, Binding, EncodeAdapter, DecodeAdapter;
    if DecodeAdapter(m.data).Ok? {
      EncodeUndoesDecode(m.data);
    }
    EncodedDecodes(m.data, channel, wrapped);
  }

  lemma EncodedDecodes(data: seq<Byte>, channel: Byte, wrapped: seq<Byte>)
    ensures EncodeAdapter(channel, wrapped) == Ok(data) ==> DecodeAdapter(data) == Ok((channel, wrapped))
  {
    hide DecodeAdapter, BigEndian;
    if EncodeAdapter(channel, wrapped) == Ok(data) {
      DecodeUndoesEncode(channel, wrapped);
    }
  }

  lemma HexIsPlain(s: string)
    requires ValidIdentity(s)
    ensures PlainText(s)
  {
  }

  lemma IDIsPlain(from: string, to: string, n: nat)
    requires PlainText(from) && PlainText(to)
    ensures PlainText(MessageID(from, to, n))
  {
    DecimalDigits(n);
    assert Plain('_');
    hide Plain, Decimal;
    assert PlainText(Decimal(n)) by {
      DigitsArePlain(Decimal(n));
    }
  }

  lemma DigitsArePlain(s: string)
    requires forall i :: 0 <= i < |s| ==> IsDigit(s[i])
    ensures PlainText(s)
  {
  }

  /** The body of a message of the longest allowed payload stays within the configured overhead. */
  lemma BodyFits(m: Message)
    requires PlainMessage(m)
    requires |m.from| <= 40 && |m.to| <= 40 && |m.kind| <= 20 && |m.id| <= 102
    requires |m.data| <= ADAPTER_HEADER + MAX_NATIVE_PAYLOAD
    ensures |JsonBody(m)| <= EncodedLen(ADAPTER_HEADER + MAX_NATIVE_PAYLOAD) + JSON_OVERHEAD
  {
    hide PlainMessage, Base64;
    Base64Length(m.data);
  }

  /** Between nodes with 40-digit identities and routes of at most sixteen million bytes, every
      admitted message fits an empty queue, and the receiver accepts it and gets back the route
      and the bytes that were submitted. */
  lemma SubmittedIsReceived(c: MediationConfig, routes: Routes, native: Native, from: string, to: string, k: Kind,
                            channel: Byte, wrapped: seq<Byte>, n: nat)
    requires c.enabled && ValidateBasic(c)
    requires ValidIdentity(from) && ValidIdentity(to) && n <= MAX_UINT64
    requires forall r :: r in routes ==> routes[r] <= MAX_NATIVE_PAYLOAD
    requires Submission(routes, from, to, k, channel, wrapped, n).Ok?
    requires native.decode(channel, wrapped) == Some(k) && native.sound(channel, wrapped)
    ensures
      var m := Submission(routes, from, to, k, channel, wrapped, n).value;
      && |m.data| == ADAPTER_HEADER + |wrapped| <= c.outboundBytes && |wrapped| <= c.callbackBytes
      && PlainMessage(m) && PlainText(Base64(m.data)) && |JsonBody(m)| <= c.maxBodyBytes
      && ReadBody(JsonBody(m)) == Some(m)
      && Reception(c, routes, native, to, m, |JsonBody(m)|) == Ok((channel, wrapped))
  {
    hide PlainText, Base64, JsonBody, EncodedLen, Decimal, BigEndian, ReadBody;
    var m := Submission(routes, from, to, k, channel, wrapped, n).value;
    BigEndianLength(|wrapped|);
    DecodeUndoesEncode(channel, wrapped);
    BindingIsPlain(k);
    HexIsPlain(from);
    HexIsPlain(to);
    IDIsPlain(from, to, n);
    MintedIDAccepted(from, to, n);
    Base64IsPlain(m.data);
    BodyFits(m);
    BodyReadsBack(m);
  }
}
