/** FIX 4.4 messages: the tag=value text, BodyLength(9), CheckSum(10), and the parser. */
module FixMessage {
  import opened Text

  const SOH: char := '\U{1}'

  datatype Field = Field(tag: int, value: string)

  /** `fields` is an insertion-ordered dictionary: no tag occurs twice. */
  datatype Message = Message(msgType: string, fields: seq<Field>)

  /** What `encode` is told by the session: the two CompIDs, the sequence number and the clock text. */
  datatype Stamp = Stamp(sender: string, target: string, seqNum: int, now: string)

  predicate Distinct(fs: seq<Field>) {
    forall i, j :: 0 <= i < j < |fs| ==> fs[i].tag != fs[j].tag
  }

  // ---------- Insertion-ordered dictionary ----------

  function Put(fs: seq<Field>, f: Field): seq<Field> {
    if fs == [] then [f]
    else if fs[0].tag == f.tag then [f] + fs[1..]
    else [fs[0]] + Put(fs[1..], f)
  }

  function Get(fs: seq<Field>, tag: int): string {
    if fs == [] then "" else if fs[0].tag == tag then fs[0].value else Get(fs[1..], tag)
  }

  // ---------- Printing ----------

  function FieldText(f: Field): string {
    Dec(f.tag) + "=" + f.value
  }

  /** Each field followed by SOH. */
  function Render(fs: seq<Field>): string {
    if fs == [] then "" else FieldText(fs[0]) + [SOH] + Render(fs[1..])
  }

  predicate Reserved(tag: int) {
    tag in {8, 9, 10, 35, 49, 56, 34, 52}
  }

  function Custom(fs: seq<Field>): (r: seq<Field>)
    ensures forall g :: g in r <==> g in fs && !Reserved(g.tag)
    ensures Distinct(fs) ==> Distinct(r)
  {
    if fs == [] then []
    else if Reserved(fs[0].tag) then Custom(fs[1..])
    else
      assert forall i :: 0 <= i < |Custom(fs[1..])| ==> Custom(fs[1..])[i] in fs[1..];
      [fs[0]] + Custom(fs[1..])
  }

  function BodyFields(m: Message, st: Stamp): seq<Field> {
    [Field(35, m.msgType), Field(49, st.sender), Field(56, st.target),
     Field(34, Dec(st.seqNum)), Field(52, st.now)] + Custom(m.fields)
  }

  function Body(m: Message, st: Stamp): string {
    Render(BodyFields(m, st))
  }

  /** The body is all ASCII; otherwise `encode` raises UnicodeEncodeError. */
  predicate Encodable(m: Message, st: Stamp) {
    IsAscii(Body(m, st))
  }

  function Sum(b: seq<byte>): nat {
    if b == [] then 0 else Sum(b[..|b| - 1]) + b[|b| - 1] as nat
  }

  function HeaderText(length: string, body: string): string {
    "8=FIX.4.4" + [SOH] + ("9=" + length + [SOH] + body)
  }

  function TrailerText(digits: string): string {
    "10=" + digits + [SOH]
  }

  function HeaderAndBody(m: Message, st: Stamp): string {
    HeaderText(Dec(|Body(m, st)|), Body(m, st))
  }

  lemma EnvelopeAscii(length: string, body: string, digits: string)
    requires IsAscii(length) && IsAscii(body) && |digits| == 3 && forall i :: 0 <= i < 3 ==> IsDigit(digits[i])
    ensures IsAscii(HeaderText(length, body)) && IsAscii(TrailerText(digits))
    ensures IsAscii(HeaderText(length, body) + TrailerText(digits))
  {
  }

  lemma HeaderAscii(m: Message, st: Stamp)
    requires Encodable(m, st)
    ensures IsAscii(HeaderAndBody(m, st))
  {
    EnvelopeAscii(Dec(|Body(m, st)|), Body(m, st), "000");
  }

  function CheckSum(m: Message, st: Stamp): (n: nat)
    requires Encodable(m, st)
    ensures n < 256
  {
    HeaderAscii(m, st);
    Sum(Ascii(HeaderAndBody(m, st))) % 256
  }

  function WireText(m: Message, st: Stamp): (wire: string)
    requires Encodable(m, st)
    ensures IsAscii(wire)
  {
    EnvelopeAscii(Dec(|Body(m, st)|), Body(m, st), Pad3(CheckSum(m, st)));
    HeaderAndBody(m, st) + TrailerText(Pad3(CheckSum(m, st)))
  }

  function Encode(m: Message, st: Stamp): Option<seq<byte>> {
    if Encodable(m, st) then Some(Ascii(WireText(m, st))) else None
  }

  // ---------- Parsing ----------

  /** `text.find(c)`, with |text| for "not found". */
  function IndexOf(s: string, c: char): (i: nat)
    ensures i <= |s|
    ensures forall k :: 0 <= k < i ==> s[k] != c
    ensures i < |s| ==> s[i] == c
  {
    if s == [] then 0 else if s[0] == c then 0 else 1 + IndexOf(s[1..], c)
  }

  function Split(s: string): (parts: seq<string>)
    ensures forall p :: p in parts ==> SOH !in p
    decreases |s|
  {
    var i := IndexOf(s, SOH);
    if i == |s| then [s] else [s[..i]] + Split(s[i + 1..])
  }

  /** A part without '=' or without an integer tag is ignored. */
  function ParsePart(p: string): Option<Field> {
    var i := IndexOf(p, '=');
    if i == |p| then None
    else
      match ParseInt(p[..i])
      case None => None
      case Some(tag) => Some(Field(tag, p[i + 1..]))
  }

  /** Later parts overwrite earlier ones with the same tag. */
  function Collect(fs: seq<Field>, parts: seq<string>): seq<Field>
    decreases |parts|
  {
    if parts == [] then fs
    else
      match ParsePart(parts[0])
      case None => Collect(fs, parts[1..])
      case Some(f) => Collect(Put(fs, f), parts[1..])
  }

  function Decode(raw: seq<byte>): Message {
    var fields := Collect([], Split(FromAscii(raw)));
    Message(Get(fields, 35), fields)
  }

  // ---------- The wire text is one list of fields ----------

  /** Every field an encoded message carries, in wire order. */
  function AllFields(m: Message, st: Stamp): seq<Field>
    requires Encodable(m, st)
  {
    [Field(8, "FIX.4.4"), Field(9, Dec(|Body(m, st)|))] + BodyFields(m, st) + [Field(10, Pad3(CheckSum(m, st)))]
  }

  lemma {:induction false} RenderConcat(a: seq<Field>, b: seq<Field>)
    ensures Render(a + b) == Render(a) + Render(b)
  {
    if a == [] {
      assert a + b == b;
    } else {
      assert (a + b)[1..] == a[1..] + b;
      RenderConcat(a[1..], b);
    }
  }

  lemma RenderEnvelope(length: string, body: seq<Field>, digits: string)
    ensures Render([Field(8, "FIX.4.4"), Field(9, length)] + body + [Field(10, digits)])
            == HeaderText(length, Render(body)) + TrailerText(digits)
  {
    hide Render, HeaderText, TrailerText;
    RenderConcat([Field(8, "FIX.4.4"), Field(9, length)] + body, [Field(10, digits)]);
    RenderHeader(length, body);
    RenderTrailer(digits);
  }

  lemma RenderHeader(length: string, body: seq<Field>)
    ensures Render([Field(8, "FIX.4.4"), Field(9, length)] + body) == HeaderText(length, Render(body))
  {
    hide Render, Dec;
    var f8, f9 := Field(8, "FIX.4.4"), Field(9, length);
    HeaderTags();
    assert [f8] + ([f9] + body) == [f8, f9] + body;
    RenderFirst(f8, [f9] + body, "8");
    RenderFirst(f9, body, "9");
    assert "8" + "=" + "FIX.4.4" == "8=FIX.4.4";
  }

  lemma RenderTrailer(digits: string)
    ensures Render([Field(10, digits)]) == TrailerText(digits)
  {
    hide Dec;
    HeaderTags();
    assert [Field(10, digits)] + [] == [Field(10, digits)];
    RenderFirst(Field(10, digits), [], "10");
    assert TrailerText(digits) + "" == TrailerText(digits);
  }

  lemma HeaderTags()
    ensures Dec(8) == "8" && Dec(9) == "9" && Dec(10) == "10"
  {
    assert DecNat(1) == "1";
  }

  lemma RenderFirst(f: Field, rest: seq<Field>, digits: string)
    requires digits == Dec(f.tag)
    ensures Render([f] + rest) == digits + "=" + f.value + [SOH] + Render(rest)
  {
    assert ([f] + rest)[1..] == rest;
    assert FieldText(f) == digits + "=" + f.value;
  }

  lemma WireIsFields(m: Message, st: Stamp)
    requires Encodable(m, st)
    ensures Render(AllFields(m, st)) == WireText(m, st)
  {
    hide BodyFields, Render, HeaderText, TrailerText, Pad3, Dec, Sum;
    RenderEnvelope(Dec(|Body(m, st)|), BodyFields(m, st), Pad3(CheckSum(m, st)));
  }

  // ---------- Decoding inverts encoding exactly when no body value holds SOH ----------

  predicate NoSoh(fs: seq<Field>) {
    forall f :: f in fs ==> SOH !in f.value
  }

  lemma ParseFieldText(f: Field)
    ensures ParsePart(FieldText(f)) == Some(f)
  {
    var p := FieldText(f);
    var d := Dec(f.tag);
    assert forall k :: 0 <= k < |d| ==> p[k] == d[k] != '=';
    assert p[|d|] == '=';
    assert IndexOf(p, '=') == |d|;
    assert p[..|d|] == d && p[|d| + 1..] == f.value;
    ParseOfDec(f.tag);
  }

  /** The text of each field, and the empty part after the last delimiter. */
  function Parts(fs: seq<Field>): seq<string> {
    if fs == [] then [""] else [FieldText(fs[0])] + Parts(fs[1..])
  }

  lemma SplitFirst(t: string, rest: string)
    requires SOH !in t
    ensures Split(t + [SOH] + rest) == [t] + Split(rest)
  {
    var s := t + [SOH] + rest;
    assert forall k :: 0 <= k < |t| ==> s[k] == t[k];
    assert s[|t|] == SOH;
    assert IndexOf(s, SOH) == |t|;
    assert s[..|t|] == t && s[|t| + 1..] == rest;
  }

  lemma FieldTextNoSoh(f: Field)
    requires SOH !in f.value
    ensures SOH !in FieldText(f)
  {
    var d := Dec(f.tag);
    assert forall c :: c in d ==> c != SOH;
  }

  lemma {:induction false} SplitRender(fs: seq<Field>)
    requires NoSoh(fs)
    ensures Split(Render(fs)) == Parts(fs)
  {
    if fs != [] {
      assert fs[0] in fs;
      FieldTextNoSoh(fs[0]);
      SplitFirst(FieldText(fs[0]), Render(fs[1..]));
      SplitRender(fs[1..]);
    }
  }

  lemma {:induction false} PutNew(fs: seq<Field>, f: Field)
    requires forall i :: 0 <= i < |fs| ==> fs[i].tag != f.tag
    ensures Put(fs, f) == fs + [f]
  {
    if fs != [] {
      PutNew(fs[1..], f);
      assert fs == [fs[0]] + fs[1..];
    }
  }

  lemma {:induction false} CollectParts(before: seq<Field>, fs: seq<Field>)
    requires Distinct(before + fs)
    ensures Collect(before, Parts(fs)) == before + fs
    decreases |fs|
  {
    if fs == [] {
      assert ParsePart("") == None;
      assert Parts(fs)[1..] == [];
      assert Collect(before, [""]) == Collect(before, []);
    } else {
      ParseFieldText(fs[0]);
      assert forall i :: 0 <= i < |before| ==> (before + fs)[i] == before[i];
      assert (before + fs)[|before|] == fs[0];
      PutNew(before, fs[0]);
      assert before + fs == (before + [fs[0]]) + fs[1..];
      assert Parts(fs)[1..] == Parts(fs[1..]);
      CollectParts(before + [fs[0]], fs[1..]);
    }
  }

  lemma DecodeRender(fs: seq<Field>)
    requires Distinct(fs) && NoSoh(fs)
    ensures Collect([], Split(Render(fs))) == fs
  {
    SplitRender(fs);
    assert [] + fs == fs;
    CollectParts([], fs);
  }

  // ----- what the parser makes of any text -----

  /** The part reads as a field of this tag: an integer before the first '=', the value after it. */
  predicate Reads(p: string, tag: int, value: string) {
    exists i :: 0 <= i < |p| && p[i] == '=' && '=' !in p[..i] && ParseInt(p[..i]) == Some(tag) && value == p[i + 1..]
  }

  lemma ParsePartIff(p: string, f: Field)
    ensures ParsePart(p) == Some(f) <==> Reads(p, f.tag, f.value)
  {
    hide ParseInt;
    var n := IndexOf(p, '=');
    forall i | 0 <= i < |p| && p[i] == '=' && '=' !in p[..i] ensures i == n {
      assert forall k :: 0 <= k < i ==> p[k] in p[..i];
    }
  }

  lemma {:induction false} GetPut(fs: seq<Field>, f: Field, tag: int)
    ensures Get(Put(fs, f), tag) == if f.tag == tag then f.value else Get(fs, tag)
  {
    if fs != [] && fs[0].tag != f.tag {
      GetPut(fs[1..], f, tag);
    }
  }

  /** Part i is the last one to read as a field of this tag. */
  ghost predicate LastReading(parts: seq<string>, tag: int, i: int, value: string) {
    0 <= i < |parts| && Reads(parts[i], tag, value) && NoReading(parts[i + 1..], tag)
  }

  ghost predicate NoReading(parts: seq<string>, tag: int) {
    forall p, value :: p in parts ==> !Reads(p, tag, value)
  }

  /** In any bytes, a tag's value is that of the last part that reads as a field of the tag; parts that read as no field
      are passed over, and a tag no part reads as is empty. */
  lemma DecodeMeans(raw: seq<byte>, tag: int, value: string)
    requires value == Get(Decode(raw).fields, tag)
    ensures var parts := Split(FromAscii(raw));
            (NoReading(parts, tag) && value == "") || exists i :: LastReading(parts, tag, i, value)
  {
    hide Split, Collect, LastReading, NoReading;
    CollectMeans([], Split(FromAscii(raw)), tag, value);
  }

  lemma {:induction false} CollectMeans(fs: seq<Field>, parts: seq<string>, tag: int, value: string)
    requires value == Get(Collect(fs, parts), tag)
    ensures (NoReading(parts, tag) && value == Get(fs, tag)) || exists i :: LastReading(parts, tag, i, value)
    decreases |parts|
  {
    hide Reads, ParsePart;
    if parts != [] {
      var rest := parts[1..];
      var next := match ParsePart(parts[0]) case None => fs case Some(f) => Put(fs, f);
      CollectMeans(next, rest, tag, value);
      if i :| LastReading(rest, tag, i, value) {
        assert parts[i + 1..][1..] == rest[i + 1..];
        assert LastReading(parts, tag, i + 1, value);
      } else {
        FirstReads(fs, parts[0], tag);
        assert parts == [parts[0]] + rest;
        if exists v :: Reads(parts[0], tag, v) {
          assert LastReading(parts, tag, 0, value);
        }
      }
    }
  }

  lemma FirstReads(fs: seq<Field>, p: string, tag: int)
    ensures var next := match ParsePart(p) case None => fs case Some(f) => Put(fs, f);
            if exists v :: Reads(p, tag, v) then Reads(p, tag, Get(next, tag)) else Get(next, tag) == Get(fs, tag)
  {
    hide Reads, Put, Get;
    forall f: Field ensures ParsePart(p) == Some(f) <==> Reads(p, f.tag, f.value) { ParsePartIff(p, f); }
    match ParsePart(p)
    case None =>
      forall v ensures !Reads(p, tag, v) { ParsePartIff(p, Field(tag, v)); }
    case Some(f) =>
      GetPut(fs, f, tag);
      ParsePartIff(p, f);
      forall v | Reads(p, tag, v) ensures f == Field(tag, v) { ParsePartIff(p, Field(tag, v)); }
  }

  function Joined(parts: seq<string>): string
    requires parts != []
  {
    if |parts| == 1 then parts[0] else parts[0] + [SOH] + Joined(parts[1..])
  }

  /** Splitting is undone by joining with the delimiter. */
  lemma {:induction false} SplitJoins(s: string)
    ensures Split(s) != [] && Joined(Split(s)) == s
    decreases |s|
  {
    var i := IndexOf(s, SOH);
    if i < |s| {
      SplitJoins(s[i + 1..]);
      var rest := Split(s[i + 1..]);
      assert ([s[..i]] + rest)[1..] == rest;
      assert s == s[..i] + [SOH] + s[i + 1..];
    }
  }

  lemma {:induction false} PutMembers(fs: seq<Field>, f: Field, g: Field)
    requires g in Put(fs, f)
    ensures g in fs || g == f
  {
    if fs != [] && fs[0].tag != f.tag && g != fs[0] {
      PutMembers(fs[1..], f, g);
    }
  }

  /** What the parser stores never contains SOH, whatever the input. */
  lemma {:induction false} CollectNoSoh(fs: seq<Field>, parts: seq<string>)
    requires NoSoh(fs)
    requires forall p :: p in parts ==> SOH !in p
    ensures NoSoh(Collect(fs, parts))
    decreases |parts|
  {
    if parts != [] {
      assert SOH !in parts[0];
      match ParsePart(parts[0])
      case None => CollectNoSoh(fs, parts[1..]);
      case Some(f) =>
        forall g | g in Put(fs, f) ensures SOH !in g.value {
          PutMembers(fs, f, g);
        }
        CollectNoSoh(Put(fs, f), parts[1..]);
    }
  }

  lemma DistinctConcat(a: seq<Field>, b: seq<Field>)
    requires Distinct(a) && Distinct(b)
    requires forall f, g :: f in a && g in b ==> f.tag != g.tag
    ensures Distinct(a + b)
  {
    assert forall i :: 0 <= i < |a| ==> a[i] in a;
    assert forall i :: 0 <= i < |b| ==> b[i] in b;
  }

  lemma AllFieldsDistinct(m: Message, st: Stamp)
    requires Encodable(m, st)
    requires Distinct(m.fields)
    ensures Distinct(AllFields(m, st))
  {
    hide Body, Pad3, Dec, CheckSum, Encodable, Distinct;
    var fs, c := AllFields(m, st), Custom(m.fields);
    var head := fs[..7];
    assert fs == head + (c + [fs[|fs| - 1]]);
    Enveloped(head, c, fs[|fs| - 1]);
  }

  lemma Enveloped(head: seq<Field>, c: seq<Field>, last: Field)
    requires |head| == 7 && head[0].tag == 8 && head[1].tag == 9 && head[2].tag == 35 && head[3].tag == 49
        && head[4].tag == 56 && head[5].tag == 34 && head[6].tag == 52 && last.tag == 10
    requires Distinct(c) && forall f :: f in c ==> !Reserved(f.tag)
    ensures Distinct(head + (c + [last]))
  {
    assert Distinct(head) && forall f :: f in head ==> Reserved(f.tag) && f.tag != 10;
    hide Distinct;
    assert Distinct([last]) by { One(last); }
    assert forall f :: f in [last] ==> f == last;
    DistinctConcat(c, [last]);
    assert forall f :: f in c + [last] ==> f in c || f == last;
    DistinctConcat(head, c + [last]);
  }

  lemma One(f: Field)
    ensures Distinct([f])
  {
  }

  lemma {:induction false} GetAt(fs: seq<Field>, i: nat)
    requires i < |fs| && forall k :: 0 <= k < i ==> fs[k].tag != fs[i].tag
    ensures Get(fs, fs[i].tag) == fs[i].value
  {
    if i > 0 {
      GetAt(fs[1..], i - 1);
    }
  }

  lemma GetMember(fs: seq<Field>, f: Field)
    requires Distinct(fs) && f in fs
    ensures Get(fs, f.tag) == f.value
  {
    var i :| 0 <= i < |fs| && fs[i] == f;
    GetAt(fs, i);
  }

  /** The session's own tags and the type, in the fields on the wire. */
  lemma GetStamp(m: Message, st: Stamp)
    requires Encodable(m, st)
    ensures var fs := AllFields(m, st);
            && Get(fs, 8) == "FIX.4.4" && Get(fs, 35) == m.msgType
            && Get(fs, 49) == st.sender && Get(fs, 56) == st.target
            && Get(fs, 34) == Dec(st.seqNum) && Get(fs, 52) == st.now
  {
    hide Get, Body, Custom, Pad3, Dec, CheckSum, Encodable;
    var fs := AllFields(m, st);
    assert fs[0].tag == 8 && fs[1].tag == 9 && fs[2].tag == 35 && fs[3].tag == 49;
    assert fs[4].tag == 56 && fs[5].tag == 34 && fs[6].tag == 52;
    GetAt(fs, 0);
    GetAt(fs, 2);
    GetAt(fs, 3);
    GetAt(fs, 4);
    GetAt(fs, 5);
    GetAt(fs, 6);
  }

  /** Decoding an encoded message gives back its type and every field in wire order
      if and only if no body value contains the delimiter. */
  lemma RoundTrip(m: Message, st: Stamp)
    requires Distinct(m.fields) && Encodable(m, st)
    ensures NoSoh(BodyFields(m, st))
            <==> Decode(Encode(m, st).value) == Message(m.msgType, AllFields(m, st))
  {
    hide BodyFields, Render, Custom, Collect, Split, Get, Distinct, WireText, Body, CheckSum, Encodable, IsAscii;
    var fs := AllFields(m, st);
    var body := BodyFields(m, st);
    WireIsFields(m, st);
    AsciiRoundTrip(Render(fs));
    AllFieldsDistinct(m, st);
    GetStamp(m, st);
    EnvelopeNoSoh(body, Dec(|Body(m, st)|), Pad3(CheckSum(m, st)));
    if NoSoh(body) {
      DecodeRender(fs);
    } else {
      CollectNoSoh([], Split(Render(fs)));
    }
  }

  /** What the other end reads: SenderCompID(49) is the sender, TargetCompID(56) the target, MsgSeqNum(34) the number in
      decimal, and SendingTime(52) the clock text. */
  lemma HeaderReads(m: Message, st: Stamp)
    requires Distinct(m.fields) && Encodable(m, st) && NoSoh(BodyFields(m, st))
    ensures var d := Decode(Encode(m, st).value);
            && d.msgType == m.msgType
            && Get(d.fields, 49) == st.sender && Get(d.fields, 56) == st.target
            && Get(d.fields, 34) == Dec(st.seqNum) && Get(d.fields, 52) == st.now
  {
    hide *;
    RoundTrip(m, st);
    GetStamp(m, st);
  }

  lemma EnvelopeNoSoh(body: seq<Field>, length: string, digits: string)
    requires SOH !in length && SOH !in digits
    ensures NoSoh([Field(8, "FIX.4.4"), Field(9, length)] + body + [Field(10, digits)]) <==> NoSoh(body)
  {
    var all := [Field(8, "FIX.4.4"), Field(9, length)] + body + [Field(10, digits)];
    assert forall f :: f in body ==> f in all;
    assert forall f :: f in all ==> f in body || f.value == "FIX.4.4" || f.value == length || f.value == digits;
  }

  /** What the application put into the message: the fields outside the session's own tags. */
  lemma {:induction false} CustomConcat(a: seq<Field>, b: seq<Field>)
    ensures Custom(a + b) == Custom(a) + Custom(b)
  {
    if a == [] {
      assert a + b == b;
    } else {
      assert (a + b)[1..] == a[1..] + b;
      CustomConcat(a[1..], b);
    }
  }

  lemma {:induction false} CustomIdempotent(fs: seq<Field>)
    ensures Custom(Custom(fs)) == Custom(fs)
  {
    if fs != [] {
      CustomIdempotent(fs[1..]);
      if !Reserved(fs[0].tag) {
        assert Custom(fs)[1..] == Custom(fs[1..]);
      }
    }
  }

  lemma ApplicationFields(m: Message, st: Stamp)
    requires Encodable(m, st)
    ensures Custom(AllFields(m, st)) == Custom(m.fields)
  {
    hide Custom, Body, Pad3, Dec, CheckSum, Encodable;
    var fs := AllFields(m, st);
    var c := Custom(m.fields);
    var head, tail := fs[..7], fs[|fs| - 1..];
    assert fs == head + c + tail;
    CustomBetween(head, c, tail);
    CustomIdempotent(m.fields);
  }

  lemma CustomBetween(head: seq<Field>, c: seq<Field>, tail: seq<Field>)
    requires forall f :: f in head ==> Reserved(f.tag)
    requires forall f :: f in tail ==> Reserved(f.tag)
    ensures Custom(head + c + tail) == Custom(c)
  {
    CustomConcat(head + c, tail);
    CustomConcat(head, c);
    AllReserved(head);
    AllReserved(tail);
  }

  lemma {:induction false} AllReserved(fs: seq<Field>)
    requires forall f :: f in fs ==> Reserved(f.tag)
    ensures Custom(fs) == []
  {
    if fs != [] {
      assert fs[0] in fs;
      AllReserved(fs[1..]);
    }
  }

  // ---------- BodyLength(9) and CheckSum(10) ----------

  /** The FIX 4.4 rules, read off a frame from the outside: it starts with BeginString and a
      decimal BodyLength that counts the bytes after its own delimiter up to the trailer, and the
      trailer is `10=` and three digits whose value is the byte sum before it modulo 256. */
  predicate ValidFrame(w: seq<byte>, lengthDigits: string, body: string) {
    && |w| >= 7
    && IsNumeral(lengthDigits) && Value(lengthDigits) == |body|
    && FromAscii(w[..|w| - 7]) == "8=FIX.4.4" + [SOH] + "9=" + lengthDigits + [SOH] + body
    && var trailer := FromAscii(w[|w| - 7..]);
    && trailer[..3] == "10=" && trailer[6] == SOH
    && IsNumeral(trailer[3..6]) && Value(trailer[3..6]) == Sum(w[..|w| - 7]) % 256
  }

  lemma EncodeIsValidFrame(m: Message, st: Stamp)
    requires Encodable(m, st)
    ensures ValidFrame(Encode(m, st).value, Dec(|Body(m, st)|), Body(m, st))
  {
    hide Body, ValidFrame, Pad3, Dec, HeaderText, TrailerText, IsAscii, Value, IsNumeral, Sum;
    ValueOfDecNat(|Body(m, st)|);
    DecOfNat(|Body(m, st)|);
    Pad3Value(CheckSum(m, st));
    EnvelopeAscii(Dec(|Body(m, st)|), Body(m, st), Pad3(CheckSum(m, st)));
    FrameShape(Dec(|Body(m, st)|), Body(m, st), Pad3(CheckSum(m, st)));
  }

  lemma DecOfNat(n: nat)
    ensures Dec(n) == DecNat(n)
  {
  }

  lemma FrameShape(length: string, body: string, digits: string)
    requires |digits| == 3 && forall i :: 0 <= i < 3 ==> IsDigit(digits[i])
    requires var full := HeaderText(length, body);
             && IsAscii(full) && IsAscii(full + TrailerText(digits))
             && IsNumeral(length) && Value(length) == |body|
             && IsNumeral(digits) && Value(digits) == Sum(Ascii(full)) % 256
    ensures ValidFrame(Ascii(HeaderText(length, body) + TrailerText(digits)), length, body)
  {
    hide IsNumeral, Value, Sum, HeaderText, TrailerText, Ascii, FromAscii, IsAscii;
    var full := HeaderText(length, body);
    TrailerSplit(full, digits);
    HeaderShape(length, body);
  }

  lemma HeaderShape(length: string, body: string)
    ensures HeaderText(length, body) == "8=FIX.4.4" + [SOH] + "9=" + length + [SOH] + body
  {
  }

  lemma TrailerSplit(full: string, digits: string)
    requires |digits| == 3 && IsAscii(full) && IsAscii(full + TrailerText(digits))
    ensures var w := Ascii(full + TrailerText(digits));
            && |w| >= 7 && w[..|w| - 7] == Ascii(full) && FromAscii(w[..|w| - 7]) == full
            && FromAscii(w[|w| - 7..]) == "10=" + digits + [SOH]
            && FromAscii(w[|w| - 7..])[3..6] == digits && FromAscii(w[|w| - 7..])[..3] == "10="
  {
    var trailer := TrailerText(digits);
    assert forall i :: 0 <= i < 7 ==> (full + trailer)[|full| + i] == trailer[i];
    AsciiConcat(full, trailer);
    AsciiSplit(full, trailer);
    assert trailer[3..6] == digits;
  }

  lemma AsciiSplit(a: string, b: string)
    requires IsAscii(a) && IsAscii(b) && IsAscii(a + b)
    ensures Ascii(a + b)[..|a|] == Ascii(a) && FromAscii(Ascii(a + b)[..|a|]) == a
    ensures FromAscii(Ascii(a + b)[|a|..]) == b
  {
    AsciiRoundTrip(a);
    AsciiRoundTrip(b);
    assert Ascii(a + b)[|a|..] == Ascii(b);
  }
}
