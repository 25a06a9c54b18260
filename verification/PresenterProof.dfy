/**
 The `Funduq-Presenter` header, both ends: what the SDK signs and what the
 gateway makes of it. Signatures are ideal (`SignedBy` can only be made by the
 key it names) and the body hash is any injective function with colon-free
 output.
 */
module PresenterProof {
  import opened Seqs
  import opened Texts
  import opened Payloads

  datatype Signature = SignedBy(key: Text, message: Text) | Scribble(bits: Text)

  predicate Verifies(key: Text, signature: Signature, message: Text) {
    signature == SignedBy(key, message)
  }

  /** The header once its JSON is read. `None` is a field absent or of the wrong type; `timestamp` is the integer it reads as. */
  datatype Header =
    | Absent
    | Malformed
    | Proof(publicKey: Option<Text>, timestamp: Option<int>, signature: Option<Signature>)

  datatype Identity = Identity(publicKey: Text)

  type Hash = Text -> Text

  ghost predicate Ideal(hash: Hash) {
    && (forall a, b :: hash(a) == hash(b) ==> a == b)
    && (forall a :: Free(hash(a), COLON))
  }

  /** The bytes both ends build for `body`. */
  function Signable(key: Text, timestamp: int, body: Text, hash: Hash): Text {
    Encode(Presenter(key, timestamp, hash(body)))
  }

  function PresenterKeyOf(header: Header, body: Text, recent: int -> bool, hash: Hash): Option<Text> {
    match header
    case Proof(Some(key), Some(timestamp), Some(signature)) =>
      if !recent(timestamp) then None
      else if !Verifies(key, signature, Signable(key, timestamp, body, hash)) then None
      else Some(key)
    case _ => None
  }

  function PresenterHeaders(identity: Option<Identity>, body: Text, timestamp: int, hash: Hash): Header {
    match identity
    case None => Absent
    case Some(id) =>
      Proof(Some(id.publicKey), Some(timestamp),
            Some(SignedBy(id.publicKey, Signable(id.publicKey, timestamp, body, hash))))
  }

  /** A request with its header; `None` is the local refusal of a chain nobody presents. */
  function Presented(raw: Text, identity: Option<Identity>, chain: bool, timestamp: int, hash: Hash): Option<(Text, Header)> {
    if chain && identity == None then None
    else Some((raw, PresenterHeaders(identity, raw, timestamp, hash)))
  }

  lemma SameBytesSameBody(key: Text, timestamp: int, a: Text, b: Text, hash: Hash)
    requires Ideal(hash) && Signable(key, timestamp, a, hash) == Signable(key, timestamp, b, hash)
    ensures a == b
  {
    PresenterFramed(key, timestamp, hash(a));
    PresenterFramed(key, timestamp, hash(b));
    EncodeInjective(Presenter(key, timestamp, hash(a)), Presenter(key, timestamp, hash(b)));
  }

  lemma PresenterFramed(key: Text, timestamp: int, digest: Text)
    requires Free(digest, COLON)
    ensures Framed(Presenter(key, timestamp, digest))
  {
    DecimalFree(timestamp);
  }

  /** The gateway names a key exactly when the header carries that key's own signature over these bytes, at a time inside the window. */
  lemma NamedExactlyWhenSigned(header: Header, body: Text, recent: int -> bool, hash: Hash, key: Text)
    ensures PresenterKeyOf(header, body, recent, hash) == Some(key) <==>
      exists timestamp ::
        && recent(timestamp)
        && header == Proof(Some(key), Some(timestamp), Some(SignedBy(key,
             Ascii("funduq-server-presenter") + [COLON] + key + [COLON] + Decimal(timestamp) + [COLON] + hash(body))))
  {
    forall timestamp: int ensures Signable(key, timestamp, body, hash) ==
      Ascii("funduq-server-presenter") + [COLON] + key + [COLON] + Decimal(timestamp) + [COLON] + hash(body)
    {
      BytesOnTheWire(Presenter(key, timestamp, hash(body)), key, [], [], [], hash(body), timestamp);
    }
  }

  /** The header of an identity proves that identity for the very bytes it was made over, inside the window, and nobody for anything else. */
  lemma HeaderProvesExactlyItsBody(id: Identity, body: Text, timestamp: int, received: Text, recent: int -> bool, hash: Hash)
    requires Ideal(hash)
    ensures PresenterKeyOf(PresenterHeaders(Some(id), body, timestamp, hash), received, recent, hash)
            == if received == body && recent(timestamp) then Some(id.publicKey) else None
  {
    if Signable(id.publicKey, timestamp, received, hash) == Signable(id.publicKey, timestamp, body, hash) {
      SameBytesSameBody(id.publicKey, timestamp, received, body, hash);
    }
  }

  /**
   A signature lifted from anywhere else in the system serves no purpose here:
   if the message it covers is any framed payload, acceptance means that payload
   was this key's own presenter proof, for this timestamp and this body.
   */
  lemma NoOtherSignatureServes(header: Header, body: Text, q: Payload, recent: int -> bool, hash: Hash)
    requires Ideal(hash) && Framed(q)
    requires header.Proof? && header.signature.Some? && header.signature.value.SignedBy?
    requires header.signature.value.message == Encode(q)
    requires PresenterKeyOf(header, body, recent, hash).Some?
    ensures q == Presenter(header.signature.value.key, header.timestamp.value, hash(body))
    ensures header.publicKey == Some(header.signature.value.key)
  {
    PresenterFramed(header.publicKey.value, header.timestamp.value, hash(body));
    EncodeInjective(q, Presenter(header.publicKey.value, header.timestamp.value, hash(body)));
  }

  /** A request with a chain that leaves this SDK at all is one whose presenter the gateway can name. */
  lemma ChainsArriveWithAPresenter(raw: Text, identity: Option<Identity>, timestamp: int, recent: int -> bool, hash: Hash)
    requires Ideal(hash) && recent(timestamp)
    ensures var sent := Presented(raw, identity, true, timestamp, hash);
            match identity
            case None => sent == None
            case Some(id) => sent.Some? && sent.value.0 == raw && PresenterKeyOf(sent.value.1, raw, recent, hash) == Some(id.publicKey)
    ensures var sent := Presented(raw, identity, false, timestamp, hash);
            && sent.Some? && sent.value.0 == raw
            && (identity == None ==> PresenterKeyOf(sent.value.1, raw, recent, hash) == None)
  {
    if identity.Some? {
      HeaderProvesExactlyItsBody(identity.value, raw, timestamp, raw, recent, hash);
    }
  }
}
