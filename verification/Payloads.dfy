/** The signed payloads: colon-separated printers, and the parser they deserve. */
module Payloads {
  import opened Seqs
  import opened Texts

  const COLON: nat := ':' as nat
  const MINUS: nat := '-' as nat

  function Ascii(s: string): (t: Text)
    ensures |t| == |s|
  {
    seq(|s|, i requires 0 <= i < |s| => s[i] as nat)
  }

  // ---- decimal numbers

  function Digits(n: nat): (t: Text)
    ensures t != [] && forall d :: d in t ==> '0' as nat <= d <= '9' as nat
  {
    if n < 10 then ['0' as nat + n] else Digits(n / 10) + ['0' as nat + n % 10]
  }

  function Decimal(n: int): Text {
    if n < 0 then [MINUS] + Digits(-n) else Digits(n)
  }

  /** The value of a run of digits with no superfluous leading zero. */
  function Natural(t: Text): Option<nat> {
    if t == [] || !('0' as nat <= t[|t| - 1] <= '9' as nat) then None
    else
      var last := t[|t| - 1] - '0' as nat;
      if |t| == 1 then Some(last)
      else
        match Natural(t[..|t| - 1])
        case None => None
        case Some(front) => if front == 0 then None else Some(front * 10 + last)
  }

  function Integer(t: Text): Option<int> {
    if t != [] && t[0] == MINUS then
      match Natural(t[1..])
      case None => None
      case Some(n) => if n == 0 then None else Some(0 - n)
    else
      match Natural(t)
      case None => None
      case Some(n) => Some(n)
  }

  lemma {:induction false} NaturalReadsDigits(n: nat)
    ensures Natural(Digits(n)) == Some(n)
  {
    if n >= 10 {
      NaturalReadsDigits(n / 10);
      assert Digits(n)[..|Digits(n)| - 1] == Digits(n / 10);
    }
  }

  lemma {:induction false} NaturalOnlyReadsDigits(t: Text)
    requires Natural(t).Some?
    ensures t == Digits(Natural(t).value)
  {
    if |t| > 1 {
      NaturalOnlyReadsDigits(t[..|t| - 1]);
      assert t == t[..|t| - 1] + [t[|t| - 1]];
    } else {
      assert t == [t[0]];
    }
  }

  /** Reading and printing integers are inverse to each other. */
  lemma IntegerReadsDecimal(t: Text, n: int)
    ensures Integer(t) == Some(n) <==> t == Decimal(n)
  {
    if t == Decimal(n) {
      assert n < 0 ==> Decimal(n)[1..] == Digits(-n);
      NaturalReadsDigits(if n < 0 then -n else n);
      assert n >= 0 ==> t[0] in t;
    }
    if Integer(t) == Some(n) {
      if t[0] == MINUS {
        NaturalOnlyReadsDigits(t[1..]);
        assert t == [MINUS] + t[1..];
      } else {
        NaturalOnlyReadsDigits(t);
      }
    }
  }

  lemma {:induction false} DigitsFree(n: nat)
    ensures Free(Digits(n), COLON)
  {
  }

  lemma DecimalFree(n: int)
    ensures Free(Decimal(n), COLON)
  {
    DigitsFree(if n < 0 then -n else n);
  }

  // ---- the families

  datatype Payload =
    | ConnectProvider(funduqKey: Text, ticket: Text, nonce: Text)
    | ConnectFunduq(ticket: Text, nonce: Text)
    | KyokCall(bearer: Text, timestamp: int, bodyHash: Text)
    | Resolve(run: Text, asksHash: Text)
    | Cancel(run: Text, timestamp: int)
    | View(run: Text, timestamp: int)
    | Presenter(key: Text, timestamp: int, bodyHash: Text)

  datatype Family = ConnectProviderF | ConnectFunduqF | KyokCallF | ResolveF | CancelF | ViewF | PresenterF

  function FamilyOf(p: Payload): Family {
    match p
    case ConnectProvider(_, _, _) => ConnectProviderF
    case ConnectFunduq(_, _) => ConnectFunduqF
    case KyokCall(_, _, _) => KyokCallF
    case Resolve(_, _) => ResolveF
    case Cancel(_, _) => CancelF
    case View(_, _) => ViewF
    case Presenter(_, _, _) => PresenterF
  }

  function Tag(f: Family): string {
    match f
    case ConnectProviderF => "funduq-connect-provider"
    case ConnectFunduqF => "funduq-connect-funduq"
    case KyokCallF => "funduq-kyok-call"
    case ResolveF => "funduq-resolve"
    case CancelF => "funduq-cancel"
    case ViewF => "funduq-view"
    case PresenterF => "funduq-server-presenter"
  }

  /** The fields behind the tag, in wire order. */
  function Fields(p: Payload): (fields: seq<Text>)
    ensures |fields| == Arity(FamilyOf(p))
  {
    match p
    case ConnectProvider(key, ticket, nonce) => [key, ticket, nonce]
    case ConnectFunduq(ticket, nonce) => [ticket, nonce]
    case KyokCall(bearer, timestamp, hash) => [bearer, Decimal(timestamp), hash]
    case Resolve(run, hash) => [run, hash]
    case Cancel(run, timestamp) => [run, Decimal(timestamp)]
    case View(run, timestamp) => [run, Decimal(timestamp)]
    case Presenter(key, timestamp, hash) => [key, Decimal(timestamp), hash]
  }

  function Arity(f: Family): nat {
    match f
    case ConnectProviderF => 3
    case KyokCallF => 3
    case PresenterF => 3
    case _ => 2
  }

  function Encode(p: Payload): Text {
    Join([Ascii(Tag(FamilyOf(p)))] + Fields(p), COLON)
  }

  lemma {:induction false} Colons(tag: Text, a: Text, b: Text, c: Text)
    ensures Join([tag, a, b], COLON) == tag + [COLON] + a + [COLON] + b
    ensures Join([tag, a, b, c], COLON) == tag + [COLON] + a + [COLON] + b + [COLON] + c
  {
    JoinPair(a, b);
    JoinPair(b, c);
    assert [tag, a, b][1..] == [a, b] && [a, b, c][1..] == [b, c] && [tag, a, b, c][1..] == [a, b, c];
    assert Join([a, b, c], COLON) == a + [COLON] + (b + [COLON] + c);
    assert tag + [COLON] + (a + [COLON] + b) == tag + [COLON] + a + [COLON] + b;
    assert tag + [COLON] + (a + [COLON] + (b + [COLON] + c)) == tag + [COLON] + a + [COLON] + b + [COLON] + c;
  }

  lemma {:induction false} JoinPair(a: Text, b: Text)
    ensures Join([a, b], COLON) == a + [COLON] + b
  {
    assert [a, b][1..] == [b];
  }

  /** The bytes of each family, written out. */
  lemma {:induction false} BytesOnTheWire(p: Payload, key: Text, ticket: Text, nonce: Text, run: Text, hash: Text, time: int)
    ensures p == ConnectProvider(key, ticket, nonce) ==>
      Encode(p) == Ascii("funduq-connect-provider") + [':' as nat] + key + [':' as nat] + ticket + [':' as nat] + nonce
    ensures p == ConnectFunduq(ticket, nonce) ==>
      Encode(p) == Ascii("funduq-connect-funduq") + [':' as nat] + ticket + [':' as nat] + nonce
    ensures p == KyokCall(key, time, hash) ==>
      Encode(p) == Ascii("funduq-kyok-call") + [':' as nat] + key + [':' as nat] + Decimal(time) + [':' as nat] + hash
    ensures p == Resolve(run, hash) ==> Encode(p) == Ascii("funduq-resolve") + [':' as nat] + run + [':' as nat] + hash
    ensures p == Cancel(run, time) ==> Encode(p) == Ascii("funduq-cancel") + [':' as nat] + run + [':' as nat] + Decimal(time)
    ensures p == View(run, time) ==> Encode(p) == Ascii("funduq-view") + [':' as nat] + run + [':' as nat] + Decimal(time)
    ensures p == Presenter(key, time, hash) ==>
      Encode(p) == Ascii("funduq-server-presenter") + [':' as nat] + key + [':' as nat] + Decimal(time) + [':' as nat] + hash
  {
    var tag, fields := Ascii(Tag(FamilyOf(p))), Fields(p);
    if |fields| == 3 {
      assert [tag] + fields == [tag, fields[0], fields[1], fields[2]];
      Colons(tag, fields[0], fields[1], fields[2]);
    } else {
      assert [tag] + fields == [tag, fields[0], fields[1]];
      Colons(tag, fields[0], fields[1], []);
    }
  }

  /** Decimal digits: one more digit behind a number makes ten times that number and the digit. */
  lemma {:induction false} DigitsInTens(n: nat, d: nat)
    requires d < 10
    ensures Digits(d) == ['0' as nat + d]
    ensures n > 0 ==> Digits(10 * n + d) == Digits(n) + ['0' as nat + d]
  {
  }

  /** Every field but the first carries no colon. The first may: it is what is left over. */
  ghost predicate Framed(p: Payload) {
    forall i :: 1 <= i < |Fields(p)| ==> Free(Fields(p)[i], COLON)
  }

  // ---- the parser

  function FamilyNamed(tag: Text): Option<Family> {
    if tag == Ascii(Tag(ConnectProviderF)) then Some(ConnectProviderF)
    else if tag == Ascii(Tag(ConnectFunduqF)) then Some(ConnectFunduqF)
    else if tag == Ascii(Tag(KyokCallF)) then Some(KyokCallF)
    else if tag == Ascii(Tag(ResolveF)) then Some(ResolveF)
    else if tag == Ascii(Tag(CancelF)) then Some(CancelF)
    else if tag == Ascii(Tag(ViewF)) then Some(ViewF)
    else if tag == Ascii(Tag(PresenterF)) then Some(PresenterF)
    else None
  }

  function Build(f: Family, fields: seq<Text>): Option<Payload>
    requires |fields| == Arity(f)
  {
    match f
    case ConnectProviderF => Some(ConnectProvider(fields[0], fields[1], fields[2]))
    case ConnectFunduqF => Some(ConnectFunduq(fields[0], fields[1]))
    case ResolveF => Some(Resolve(fields[0], fields[1]))
    case KyokCallF => if Integer(fields[1]) == None then None else Some(KyokCall(fields[0], Integer(fields[1]).value, fields[2]))
    case CancelF => if Integer(fields[1]) == None then None else Some(Cancel(fields[0], Integer(fields[1]).value))
    case ViewF => if Integer(fields[1]) == None then None else Some(View(fields[0], Integer(fields[1]).value))
    case PresenterF => if Integer(fields[1]) == None then None else Some(Presenter(fields[0], Integer(fields[1]).value, fields[2]))
  }

  /** Tag up to the first colon, the last fields from the right, and the first field is whatever lies between. */
  function Decode(t: Text): Option<Payload> {
    var parts := Split(t, COLON);
    match FamilyNamed(parts[0])
    case None => None
    case Some(f) =>
      var cut := |parts| - (Arity(f) - 1);
      if cut < 2 then None else Build(f, [Join(parts[1..cut], COLON)] + parts[cut..])
  }

  // ---- the theorems

  /** No two tags are the same: they differ in length, or right after `funduq-`. */
  lemma TagsDiffer(f: Family, g: Family)
    requires Ascii(Tag(f)) == Ascii(Tag(g))
    ensures f == g
  {
    assert |Tag(f)| == |Tag(g)|;
    assert Ascii(Tag(f))[7] == Tag(f)[7] as nat && Ascii(Tag(g))[7] == Tag(g)[7] as nat;
    assert Tag(f)[7] == Tag(g)[7];
  }

  lemma TagFree(f: Family)
    ensures Free(Ascii(Tag(f)), COLON)
  {
    assert forall i :: 0 <= i < |Tag(f)| ==> Tag(f)[i] != ':';
  }

  lemma FamilyNamedTag(f: Family)
    ensures FamilyNamed(Ascii(Tag(f))) == Some(f)
  {
    match FamilyNamed(Ascii(Tag(f)))
    case Some(g) => TagsDiffer(f, g);
    case None =>
  }

  /** How a payload splits: the tag, the pieces of the first field, and the rest of the fields whole. */
  lemma SplitEncoded(p: Payload)
    ensures Split(Encode(p), COLON)[0] == Ascii(Tag(FamilyOf(p)))
    ensures Framed(p) ==>
      Split(Encode(p), COLON) == [Ascii(Tag(FamilyOf(p)))] + Split(Fields(p)[0], COLON) + Fields(p)[1..]
  {
    var tag, fields := Ascii(Tag(FamilyOf(p))), Fields(p);
    TagFree(FamilyOf(p));
    assert ([tag] + fields)[1..] == fields;
    SplitConcat(tag, COLON, Join(fields, COLON));
    SplitWhole(tag, COLON);
    if Framed(p) {
      SplitConcat(fields[0], COLON, Join(fields[1..], COLON));
      SplitJoin(fields[1..], COLON);
    }
  }

  /** A builder's bytes never pass for another family's, whatever their fields hold. */
  lemma FamiliesApart(p: Payload, q: Payload)
    requires Encode(p) == Encode(q)
    ensures FamilyOf(p) == FamilyOf(q)
  {
    SplitEncoded(p);
    SplitEncoded(q);
    TagsDiffer(FamilyOf(p), FamilyOf(q));
  }

  lemma BuildFields(p: Payload)
    ensures Build(FamilyOf(p), Fields(p)) == Some(p)
  {
    if |Fields(p)| > 1 && !p.ConnectProvider? && !p.ConnectFunduq? && !p.Resolve? {
      IntegerReadsDecimal(Decimal(p.timestamp), p.timestamp);
    }
  }

  lemma FieldsOfBuilt(f: Family, fields: seq<Text>)
    requires |fields| == Arity(f) && Build(f, fields).Some?
    ensures FamilyOf(Build(f, fields).value) == f && Fields(Build(f, fields).value) == fields
  {
    var p := Build(f, fields).value;
    if Integer(fields[1]).Some? {
      IntegerReadsDecimal(fields[1], Integer(fields[1]).value);
    }
    assert FamilyOf(p) == f && |Fields(p)| == |fields|;
    assert fields[0] == Fields(p)[0] && fields[1] == Fields(p)[1] && (|fields| == 3 ==> fields[2] == Fields(p)[2]);
  }

  lemma DecodeEncode(p: Payload)
    requires Framed(p)
    ensures Decode(Encode(p)) == Some(p)
  {
    var tag, fields := Ascii(Tag(FamilyOf(p))), Fields(p);
    var head := Split(fields[0], COLON);
    var parts := [tag] + head + fields[1..];
    SplitEncoded(p);
    FamilyNamedTag(FamilyOf(p));
    var cut := |parts| - (Arity(FamilyOf(p)) - 1);
    assert parts[1..cut] == head && parts[cut..] == fields[1..];
    JoinSplit(fields[0], COLON);
    assert [fields[0]] + fields[1..] == fields;
    BuildFields(p);
  }

  /**
   Decoding is exactly the inverse of the builders: a text decodes to `p` when,
   and only when, `p` is framed and the text is what its builder prints.
   */
  lemma DecodeExactly(t: Text, p: Payload)
    ensures Decode(t) == Some(p) <==> Framed(p) && t == Encode(p)
  {
    if Framed(p) && t == Encode(p) {
      DecodeEncode(p);
    }
    if Decode(t) == Some(p) {
      DecodedPrints(t);
    }
  }

  lemma NamedTag(tag: Text)
    requires FamilyNamed(tag).Some?
    ensures tag == Ascii(Tag(FamilyNamed(tag).value))
  {
  }

  lemma {:induction false} BuiltPrints(f: Family, first: Text, later: seq<Text>)
    requires |later| == Arity(f) - 1 && Build(f, [first] + later).Some?
    requires forall i :: 0 <= i < |later| ==> Free(later[i], COLON)
    ensures var p := Build(f, [first] + later).value;
      Framed(p) && Encode(p) == Join([Ascii(Tag(f))] + ([first] + later), COLON)
  {
    FieldsOfBuilt(f, [first] + later);
  }

  lemma DecodedPrints(t: Text)
    requires Decode(t).Some?
    ensures Framed(Decode(t).value) && Encode(Decode(t).value) == t
  {
    var parts := Split(t, COLON);
    NamedTag(parts[0]);
    var f := FamilyNamed(parts[0]).value;
    var cut := |parts| - (Arity(f) - 1);
    LaterFieldsFree(t, cut);
    BuiltPrints(f, Join(parts[1..cut], COLON), parts[cut..]);
    Regroup(t, cut);
  }

  lemma {:induction false} LaterFieldsFree(t: Text, cut: nat)
    requires 2 <= cut < |Split(t, COLON)|
    ensures forall i :: 0 <= i < |Split(t, COLON)[cut..]| ==> Free(Split(t, COLON)[cut..][i], COLON)
  {
    SplitFree(t, COLON);
  }

  lemma {:induction false} Regroup(t: Text, cut: nat)
    requires 2 <= cut < |Split(t, COLON)|
    ensures var parts := Split(t, COLON);
      Join([parts[0]] + ([Join(parts[1..cut], COLON)] + parts[cut..]), COLON) == t
  {
    var parts := Split(t, COLON);
    JoinSplit(t, COLON);
    assert parts == [parts[0]] + (parts[1..cut] + parts[cut..]);
    JoinMiddle([parts[0]], parts[1..cut], parts[cut..], COLON);
  }

  /** Hence equal bytes mean equal payloads, first fields with colons included. */
  lemma EncodeInjective(p: Payload, q: Payload)
    requires Framed(p) && Framed(q) && Encode(p) == Encode(q)
    ensures p == q
  {
    DecodeEncode(p);
    DecodeEncode(q);
  }

  /** A colon in a field behind the first is what makes two payloads collide. */
  lemma UnframedCollides()
    ensures var p := ConnectFunduq(Ascii("a"), Ascii("b:c")); var q := ConnectFunduq(Ascii("a:b"), Ascii("c"));
            Encode(p) == Encode(q) && p != q && !Framed(p) && Framed(q)
  {
    var p := ConnectFunduq(Ascii("a"), Ascii("b:c"));
    var q := ConnectFunduq(Ascii("a:b"), Ascii("c"));
    assert Ascii("b:c")[1] == COLON && Fields(p)[1] == Ascii("b:c");
    JoinConcat([Ascii(Tag(ConnectFunduqF))], Fields(p), COLON);
    JoinConcat([Ascii(Tag(ConnectFunduqF))], Fields(q), COLON);
    JoinConcat([p.ticket], [p.nonce], COLON);
    JoinConcat([q.ticket], [q.nonce], COLON);
    assert Fields(p) == [p.ticket] + [p.nonce] && Fields(q) == [q.ticket] + [q.nonce];
    assert p.ticket + [COLON] + p.nonce == q.ticket + [COLON] + q.nonce;
    assert |p.ticket| != |q.ticket|;
  }
}
