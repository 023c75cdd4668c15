/** The record the manifest is built in (`STObject`), the byte buffer it is serialised into
    (`Serializer`), and the signing helpers `sign`/`verify` over such a record.
    The library's binary layout is not part of this model; the layout here keeps its shape:
    fields in a fixed canonical order, each preceded by a header naming it, 32-bit integers
    as four big-endian bytes, variable-length fields preceded by a one-byte length (at most
    192), and signatures computed over a hash prefix followed by the serialisation of the
    signing fields only. */
module STObjects {
  import opened Wrappers
  import opened Bytes
  import Crypto

  /** The fields a manifest uses: sfSequence, sfPublicKey, sfSigningPubKey, sfSignature,
      sfMasterSignature. */
  datatype SField = Sequence | PublicKey | SigningPubKey | Signature | MasterSignature

  /** A field's value: a 32-bit integer or a variable-length blob. */
  datatype STValue = UInt32(n: uint32) | Blob(bytes: seq<byte>)

  type Fields = map<SField, STValue>

  /** Serialisation order: by type code, then field code. */
  const CanonicalOrder: seq<SField> := [Sequence, PublicKey, SigningPubKey, Signature, MasterSignature]

  /** The canonical order without the two signature fields, which are never signed. */
  const SigningOrder: seq<SField> := [Sequence, PublicKey, SigningPubKey]

  const MaxBlobLength := 192

  predicate ValueFits(f: SField, v: STValue)
  {
    if f == Sequence then v.UInt32? else v.Blob? && |v.bytes| <= MaxBlobLength
  }

  /** Every present field holds a value of its type that the layout can carry. */
  predicate WellFormed(fields: Fields)
  {
    forall f :: f in fields ==> ValueFits(f, fields[f])
  }

  function Header(f: SField): seq<byte>
  {
    match f
    case Sequence => [0x24]
    case PublicKey => [0x71]
    case SigningPubKey => [0x73]
    case Signature => [0x76]
    case MasterSignature => [0x70, 0x12]
  }

  function EncodeValue(v: STValue): seq<byte>
    requires v.Blob? ==> |v.bytes| <= MaxBlobLength
  {
    match v
    case UInt32(n) => BigEndian32(n)
    case Blob(b) => [|b|] + b
  }

  function EncodeField(f: SField, v: STValue): seq<byte>
    requires ValueFits(f, v)
  {
    Header(f) + EncodeValue(v)
  }

  /** The fields of `order` that are present, each encoded, in that order. */
  function SerializeIn(fields: Fields, order: seq<SField>): seq<byte>
    requires WellFormed(fields)
  {
    if order == [] then []
    else
      (if order[0] in fields then EncodeField(order[0], fields[order[0]]) else [])
      + SerializeIn(fields, order[1..])
  }

  /** `STObject::add(Serializer&)`: every field, in canonical order. */
  function Serialize(fields: Fields): seq<byte>
    requires WellFormed(fields)
  {
    SerializeIn(fields, CanonicalOrder)
  }

  /** Reads a field header; returns the field and the rest. */
  function ParseHeader(b: seq<byte>): (r: Option<(SField, seq<byte>)>)
    ensures r.Some? ==> |r.value.1| < |b|
  {
    if |b| == 0 then None
    else if b[0] == 0x24 then Some((Sequence, b[1..]))
    else if b[0] == 0x71 then Some((PublicKey, b[1..]))
    else if b[0] == 0x73 then Some((SigningPubKey, b[1..]))
    else if b[0] == 0x76 then Some((Signature, b[1..]))
    else if b[0] == 0x70 && |b| > 1 && b[1] == 0x12 then Some((MasterSignature, b[2..]))
    else None
  }

  /** Reads the value of field `f`; returns the value and the rest. */
  function ParseValue(f: SField, b: seq<byte>): (r: Option<(STValue, seq<byte>)>)
    ensures r.Some? ==> |r.value.1| < |b| && ValueFits(f, r.value.0)
  {
    if f == Sequence then
      if |b| < 4 then None else Some((UInt32(FromBigEndian32(b[..4])), b[4..]))
    else if |b| == 0 || b[0] > MaxBlobLength || |b| < 1 + b[0] then None
    else Some((Blob(b[1..1 + b[0]]), b[1 + b[0]..]))
  }

  /** `STObject::set(SerialIter&)`: reads fields until the bytes run out; a truncated field,
      an unknown header or a repeated field is refused. */
  function Parse(b: seq<byte>): (r: Option<Fields>)
    ensures r.Some? ==> WellFormed(r.value)
    decreases |b|
  {
    if b == [] then Some(map[])
    else
      match ParseHeader(b)
      case None => None
      case Some((f, afterHeader)) =>
        match ParseValue(f, afterHeader)
        case None => None
        case Some((v, rest)) =>
          match Parse(rest)
          case None => None
          case Some(m) => if f in m then None else Some(m[f := v])
  }

  lemma ParseEncodedField(f: SField, v: STValue, rest: seq<byte>)
    requires ValueFits(f, v)
    ensures ParseHeader(EncodeField(f, v) + rest) == Some((f, EncodeValue(v) + rest))
    ensures ParseValue(f, EncodeValue(v) + rest) == Some((v, rest))
  {
    var e := EncodeValue(v) + rest;
    assert (Header(f) + EncodeValue(v)) + rest == Header(f) + e;
    if v.UInt32? {
      assert e[..4] == BigEndian32(v.n);
      assert e[4..] == rest;
      FromBigEndian32Inverse(v.n);
    } else {
      assert e[1..1 + |v.bytes|] == v.bytes;
      assert e[1 + |v.bytes|..] == rest;
    }
  }

  /** Parsing one encoded field followed by an encoded record. */
  lemma ParseCons(f: SField, v: STValue, rest: seq<byte>, m: Fields)
    requires ValueFits(f, v) && Parse(rest) == Some(m) && f !in m
    ensures Parse(EncodeField(f, v) + rest) == Some(m[f := v])
  {
    ParseEncodedField(f, v, rest);
    assert |EncodeField(f, v) + rest| > 0;
  }

  /** The fields of `fields` named in `order`. */
  function Restrict(fields: Fields, order: seq<SField>): Fields
  {
    map f | f in fields && f in order :: fields[f]
  }

  lemma RestrictCons(fields: Fields, order: seq<SField>)
    requires order != []
    ensures order[0] in fields ==> Restrict(fields, order) == Restrict(fields, order[1..])[order[0] := fields[order[0]]]
    ensures order[0] !in fields ==> Restrict(fields, order) == Restrict(fields, order[1..])
  {
    forall f ensures f in order <==> f == order[0] || f in order[1..] {
      if f in order {
        var i :| 0 <= i < |order| && order[i] == f;
        if i > 0 { assert order[1..][i - 1] == f; }
      }
    }
  }

  lemma TailOmitsHead(order: seq<SField>)
    requires order != []
    requires forall i, j :: 0 <= i < j < |order| ==> order[i] != order[j]
    ensures order[0] !in order[1..]
  {
    forall j | 0 <= j < |order[1..]| ensures order[1..][j] != order[0] {
      assert order[1..][j] == order[j + 1];
    }
  }

  /** Parsing a serialisation gives back the fields serialised, for any order that names
      each field at most once. */
  lemma {:induction false} ParseSerializeIn(fields: Fields, order: seq<SField>)
    requires WellFormed(fields)
    requires forall i, j :: 0 <= i < j < |order| ==> order[i] != order[j]
    ensures Parse(SerializeIn(fields, order)) == Some(Restrict(fields, order))
  {
    if order == [] {
      assert Restrict(fields, order) == map[];
    } else {
      var f := order[0];
      var rest := SerializeIn(fields, order[1..]);
      ParseSerializeIn(fields, order[1..]);
      var m := Restrict(fields, order[1..]);
      TailOmitsHead(order);
      if f in fields {
        assert SerializeIn(fields, order) == EncodeField(f, fields[f]) + rest;
        ParseCons(f, fields[f], rest, m);
        RestrictCons(fields, order);
      } else {
        assert SerializeIn(fields, order) == [] + rest;
        assert [] + rest == rest;
        RestrictCons(fields, order);
      }
    }
  }

  /** Round trip: a well-formed record parses back from its serialisation. */
  lemma ParseSerialize(fields: Fields)
    requires WellFormed(fields)
    ensures Parse(Serialize(fields)) == Some(fields)
  {
    ParseSerializeIn(fields, CanonicalOrder);
    assert Restrict(fields, CanonicalOrder) == fields;
  }

  /** The serialisation of `order` depends only on the fields `order` names. */
  lemma {:induction false} SerializeInAgrees(f1: Fields, f2: Fields, order: seq<SField>)
    requires WellFormed(f1) && WellFormed(f2)
    requires forall f :: f in order ==> (f in f1 <==> f in f2) && (f in f1 ==> f1[f] == f2[f])
    ensures SerializeIn(f1, order) == SerializeIn(f2, order)
  {
    if order != [] {
      SerializeInAgrees(f1, f2, order[1..]);
    }
  }

  /** What `sign` and `verify` hash: the prefix, then the signing fields serialised. */
  function SigningData(prefix: seq<byte>, fields: Fields): seq<byte>
    requires WellFormed(fields)
  {
    prefix + SerializeIn(fields, SigningOrder)
  }

  /** Adding a signature field does not change what is signed. */
  lemma SigningDataIgnoresSignatures(prefix: seq<byte>, fields: Fields, f: SField, v: STValue)
    requires WellFormed(fields) && ValueFits(f, v)
    requires f == Signature || f == MasterSignature
    ensures WellFormed(fields[f := v])
    ensures SigningData(prefix, fields[f := v]) == SigningData(prefix, fields)
  {
    SerializeInAgrees(fields[f := v], fields, SigningOrder);
  }

  /** `verify(st, prefix, pk, sigField)`: the field is present and holds a signature of the
      signing data under `pk`. */
  predicate VerifyField(fields: Fields, prefix: seq<byte>, pk: Crypto.PublicKey, sigField: SField)
    requires WellFormed(fields)
  {
    && sigField in fields
    && fields[sigField].Blob?
    && Crypto.Verify(pk, SigningData(prefix, fields), fields[sigField].bytes)
  }

  /** A serialisation buffer. */
  class Serializer {
    var data: seq<byte>

    constructor ()
      ensures data == []
    {
      data := [];
    }

    method Append(bytes: seq<byte>)
      modifies this
      ensures data == old(data) + bytes
    {
      data := data + bytes;
    }
  }

  /** A record under construction. */
  class STObject {
    var fields: Fields

    ghost predicate Valid()
      reads this
    {
      WellFormed(fields)
    }

    /** `STObject st(sfGeneric)`: no fields. */
    constructor ()
      ensures Valid() && fields == map[]
    {
      fields := map[];
    }

    /** `st[f] = v` */
    method Set(f: SField, v: STValue)
      requires Valid() && ValueFits(f, v)
      modifies this
      ensures Valid() && fields == old(fields)[f := v]
    {
      fields := fields[f := v];
    }

    /** `sign(st, prefix, type, sk, sigField)`: signs the signing data as it is now and
        stores the signature in `sigField`. */
    method Sign(prefix: seq<byte>, kt: Crypto.KeyType, sk: Crypto.SecretKey, sigField: SField)
      requires Valid() && (sigField == Signature || sigField == MasterSignature)
      modifies this
      ensures Valid()
      ensures fields == old(fields)[sigField := Blob(Crypto.Sign(kt, sk, SigningData(prefix, old(fields))))]
    {
      var signature := Crypto.Sign(kt, sk, SigningData(prefix, fields));
      fields := fields[sigField := Blob(signature)];
    }

    /** `st.add(s)`: appends the whole record, in canonical order. */
    method AddTo(s: Serializer)
      requires Valid()
      modifies s
      ensures s.data == old(s.data) + Serialize(fields)
    {
      s.Append(Serialize(fields));
    }
  }
}
