/**
 Length-prefixed fields (`publisher/src/crypto.rs`, `server/src/util.rs`) and what is built
 from them: the statement a key signs (`server/src/crypto.rs`) and the check a publisher makes
 of it before signing (`publisher/src/api.rs`).  Text is the bytes it is written as.
 */
module Wire {
  import opened Bytes

  type Data = seq<byte>

  // ------------------------------------------------------------------------- integers

  function Range(width: nat): nat { if width == 0 then 1 else 256 * Range(width - 1) }

  /** `to_be_bytes`, after a cast that keeps only the low `width` bytes. */
  function BigEndian(n: nat, width: nat): (b: Data)
    ensures |b| == width
  {
    if width == 0 then [] else BigEndian(n / 256, width - 1) + [(n % 256) as byte]
  }

  /** `from_be_bytes` */
  function Number(b: Data): (n: nat)
    ensures n < Range(|b|)
  {
    if b == [] then 0 else Number(b[..|b| - 1]) * 256 + b[|b| - 1] as nat
  }

  lemma {:induction false} NumberOfBigEndian(n: nat, width: nat)
    requires n < Range(width)
    ensures Number(BigEndian(n, width)) == n
  {
    if width != 0 {
      NumberOfBigEndian(n / 256, width - 1);
      assert BigEndian(n, width)[..width - 1] == BigEndian(n / 256, width - 1);
    }
  }

  lemma {:induction false} BigEndianOfNumber(b: Data)
    ensures BigEndian(Number(b), |b|) == b
    decreases |b|
  {
    if b != [] {
      var front, last := b[..|b| - 1], b[|b| - 1];
      BigEndianOfNumber(front);
      Digits(Number(front), last as nat);
      assert b == front + [last];
    }
  }

  lemma Digits(high: nat, low: nat)
    requires low < 256
    ensures (high * 256 + low) / 256 == high && (high * 256 + low) % 256 == low
  {
  }

  const U32: nat := 0x1_0000_0000
  const U64: nat := 0x1_0000_0000_0000_0000

  lemma Widths()
    ensures Range(4) == U32 && Range(8) == U64
  {
    assert Range(2) == 0x1_0000 && Range(3) == 0x100_0000 && Range(4) == U32;
    assert Range(5) == 0x100 * U32 && Range(6) == 0x1_0000 * U32 && Range(7) == 0x100_0000 * U32;
  }

  // -------------------------------------------------------------------------- fields

  function Field(f: Data): Data { BigEndian(|f|, 4) + f }

  function Encoded(fields: seq<Data>): Data {
    if fields == [] then [] else Field(fields[0]) + Encoded(fields[1..])
  }

  /** The builder; `finish` gives up its buffer. */
  class LengthPrefixed {
    var buf: Data
    ghost var fields: seq<Data>

    ghost predicate Valid()
      reads this
    {
      buf == Encoded(fields)
    }

    constructor ()
      ensures Valid() && fields == []
    {
      buf, fields := [], [];
    }

    method Append(f: Data)
      requires Valid()
      modifies this
      ensures Valid() && fields == old(fields) + [f] && buf == old(buf) + Field(f)
    {
      EncodedAppends(fields, f);
      buf := buf + BigEndian(|f|, 4) + f;
      fields := fields + [f];
    }
  }

  lemma {:induction false} EncodedAppends(fields: seq<Data>, f: Data)
    ensures Encoded(fields + [f]) == Encoded(fields) + BigEndian(|f|, 4) + f
    decreases |fields|
  {
    if fields == [] {
      assert [f][1..] == [] && Encoded([]) == [];
    } else {
      EncodedAppends(fields[1..], f);
      assert (fields + [f])[1..] == fields[1..] + [f];
    }
  }

  /** How the first field of some bytes is found, if they begin with one. */
  function FirstField(bytes: Data): (f: Option<Data>)
    ensures f.Some? ==> 4 + |f.value| <= |bytes|
  {
    if |bytes| < 4 then None
    else
      var n := Number(bytes[..4]);
      if 4 + n > |bytes| then None else Some(bytes[4..4 + n])
  }

  /** The fields some bytes are made of, however many. */
  function Fields(bytes: Data): Option<seq<Data>>
    decreases |bytes|
  {
    if bytes == [] then Some([])
    else match FirstField(bytes)
      case None => None
      case Some(f) =>
        match Fields(bytes[4 + |f|..])
        case None => None
        case Some(rest) => Some([f] + rest)
  }

  const MOST_FIELDS: nat := 64

  function Parsed(bytes: Data): Option<seq<Data>> {
    var fields := Fields(bytes);
    if fields.Some? && |fields.value| <= MOST_FIELDS then fields else None
  }

  predicate Short(fields: seq<Data>) { forall f | f in fields :: |f| < U32 }

  lemma FirstFieldOf(f: Data, tail: Data)
    requires |f| < U32
    ensures FirstField(Field(f) + tail) == Some(f)
    ensures (Field(f) + tail)[4 + |f|..] == tail
  {
    Widths();
    NumberOfBigEndian(|f|, 4);
    var bytes := Field(f) + tail;
    assert bytes[..4] == BigEndian(|f|, 4);
    assert bytes[4..4 + |f|] == f;
  }

  lemma FirstFieldIsField(bytes: Data)
    requires FirstField(bytes).Some?
    ensures var f := FirstField(bytes).value;
            |f| < U32 && bytes == Field(f) + bytes[4 + |f|..]
  {
    Widths();
    BigEndianOfNumber(bytes[..4]);
    var f := FirstField(bytes).value;
    assert bytes == bytes[..4] + f + bytes[4 + |f|..];
  }

  lemma {:induction false} EncodedParses(fields: seq<Data>)
    requires Short(fields)
    ensures Fields(Encoded(fields)) == Some(fields)
    decreases |fields|
  {
    if fields != [] {
      FirstFieldOf(fields[0], Encoded(fields[1..]));
      EncodedParses(fields[1..]);
      assert Encoded(fields) == Field(fields[0]) + Encoded(fields[1..]);
      assert [fields[0]] + fields[1..] == fields;
    }
  }

  /** Any bytes that parse are the one encoding of what they parse to. */
  lemma {:induction false} ParsedIsEncoded(bytes: Data)
    requires Fields(bytes).Some?
    ensures Encoded(Fields(bytes).value) == bytes && Short(Fields(bytes).value)
    decreases |bytes|
  {
    if bytes != [] {
      var f := FirstField(bytes).value;
      FirstFieldIsField(bytes);
      ParsedIsEncoded(bytes[4 + |f|..]);
      var rest := Fields(bytes[4 + |f|..]).value;
      assert ([f] + rest)[1..] == rest;
    }
  }

  /** Parsing undoes encoding exactly for up to 64 fields whose lengths fit their prefix. */
  lemma ParseUndoesEncodeIff(fields: seq<Data>)
    ensures Parsed(Encoded(fields)) == Some(fields) <==> |fields| <= MOST_FIELDS && Short(fields)
  {
    if Short(fields) {
      EncodedParses(fields);
    }
    if Parsed(Encoded(fields)) == Some(fields) {
      ParsedIsEncoded(Encoded(fields));
    }
  }

  lemma EncodingIsUnique(a: seq<Data>, b: seq<Data>)
    requires Short(a) && Short(b) && Encoded(a) == Encoded(b)
    ensures a == b
  {
    EncodedParses(a);
    EncodedParses(b);
  }

  /** The loop of `parse_length_prefixed`. */
  method ParseLengthPrefixed(bytes: Data) returns (r: Option<seq<Data>>)
    ensures r == Parsed(bytes)
  {
    var fields, cursor := [], 0;
    r := None;
    assert bytes[0..] == bytes;
    assert Fields(bytes).Some? ==> [] + Fields(bytes).value == Fields(bytes).value;
    while cursor < |bytes|
      invariant 0 <= cursor <= |bytes| && |fields| <= MOST_FIELDS
      invariant Fields(bytes) == Prepended(fields, Fields(bytes[cursor..]))
      decreases |bytes| - cursor
    {
      var left := bytes[cursor..];
      if cursor + 4 > |bytes| {
        return;
      }
      assert left[..4] == bytes[cursor..cursor + 4];
      var length := Number(bytes[cursor..cursor + 4]);
      cursor := cursor + 4;
      if cursor + length > |bytes| {
        return;
      }
      var f := bytes[cursor..cursor + length];
      assert left[4..4 + length] == f;
      cursor := cursor + length;
      assert left[4 + length..] == bytes[cursor..];
      PrependedMoves(fields, f, Fields(bytes[cursor..]));
      fields := fields + [f];
      if |fields| > MOST_FIELDS {
        return;
      }
    }
    assert bytes[cursor..] == [] && fields + [] == fields;
    r := Some(fields);
  }

  function Prepended(first: seq<Data>, rest: Option<seq<Data>>): Option<seq<Data>> {
    match rest case None => None case Some(more) => Some(first + more)
  }

  lemma PrependedMoves(first: seq<Data>, f: Data, rest: Option<seq<Data>>)
    ensures Prepended(first + [f], rest) == Prepended(first, Prepended([f], rest))
  {
    if rest.Some? {
      assert first + [f] + rest.value == first + ([f] + rest.value);
    }
  }

  // ----------------------------------------------------------- the statement that is signed

  function Ascii(s: string): (b: Data)
    ensures |b| == |s|
    ensures forall i | 0 <= i < |s| && s[i] as int < 0x80 :: b[i] as int == s[i] as int
  {
    seq(|s|, i requires 0 <= i < |s| => (s[i] as int % 256) as byte)
  }

  const CONTEXT: Data := Ascii("terminal-relay-challenge-v1")

  datatype Operation = RegisterIdentity | AuthenticateIdentity | RegisterDevice | AuthenticateDevice
  {
    function Name(): Data {
      match this
      case RegisterIdentity => Ascii("register_identity")
      case AuthenticateIdentity => Ascii("authenticate_identity")
      case RegisterDevice => Ascii("register_device")
      case AuthenticateDevice => Ascii("authenticate_device")
    }
  }

  lemma NamesDiffer(a: Operation, b: Operation)
    requires a.Name() == b.Name()
    ensures a == b
  {
    assert |"register_identity"| == 17 && |"authenticate_identity"| == 21;
    assert |"register_device"| == 15 && |"authenticate_device"| == 19;
  }

  datatype Statement = Statement(
    origin: Data, challengeId: Data, challenge: Data, operation: Operation,
    keyFingerprint: Data, ownerIdentity: Data, deviceKeyFingerprint: Data, expiresAt: nat)
  {
    function Fields(): seq<Data> {
      [CONTEXT, origin, challengeId, challenge, operation.Name(), keyFingerprint, ownerIdentity,
       deviceKeyFingerprint, BigEndian(expiresAt, 8)]
    }

    /** `SigningInput::encode` */
    function Encode(): Data { Encoded(Fields()) }

    /** Every field can be length-prefixed, and the time is a u64. */
    predicate Fits() { Short(Fields()) && expiresAt < U64 }
  }

  /** A signature over one statement is a signature over no other: every field is bound. */
  lemma StatementIsBound(a: Statement, b: Statement)
    requires a.Fits() && b.Fits() && a.Encode() == b.Encode()
    ensures a == b
  {
    EncodingIsUnique(a.Fields(), b.Fields());
    var f, g := a.Fields(), b.Fields();
    assert f[1] == g[1] && f[2] == g[2] && f[3] == g[3] && f[4] == g[4];
    assert f[5] == g[5] && f[6] == g[6] && f[7] == g[7] && f[8] == g[8];
    NamesDiffer(a.operation, b.operation);
    Widths();
    NumberOfBigEndian(a.expiresAt, 8);
    NumberOfBigEndian(b.expiresAt, 8);
  }

  /** `verify_binding`: what a publisher insists on before it signs. */
  method VerifyBinding(input: Data, fingerprint: Data, operation: Operation, owner: Option<Data>)
      returns (ok: bool)
    ensures ok == Binds(input, fingerprint, operation, owner)
  {
    ok := false;
    var fields := ParseLengthPrefixed(input);
    if fields.Some? && |fields.value| == 9 {
      ok := fields.value[0] == CONTEXT && fields.value[4] == operation.Name()
            && fields.value[5] == fingerprint && (owner.Some? ==> fields.value[6] == owner.value);
    }
  }

  predicate Binds(input: Data, fingerprint: Data, operation: Operation, owner: Option<Data>) {
    var fields := Parsed(input);
    && fields.Some? && |fields.value| == 9
    && fields.value[0] == CONTEXT && fields.value[4] == operation.Name() && fields.value[5] == fingerprint
    && (owner.Some? ==> fields.value[6] == owner.value)
  }

  /**
   Of any fields at all, the check passes exactly nine, the first of them the relay's own context:
   what some other protocol asks to be signed is refused, whatever else it says.
   */
  lemma BindsIff(fields: seq<Data>, fingerprint: Data, operation: Operation, owner: Option<Data>)
    requires Short(fields)
    ensures Binds(Encoded(fields), fingerprint, operation, owner) <==>
              && |fields| == 9 && fields[0] == Ascii("terminal-relay-challenge-v1")
              && fields[4] == operation.Name() && fields[5] == fingerprint
              && (owner.Some? ==> fields[6] == owner.value)
  {
    EncodedParses(fields);
  }

  /** And bytes that are not length-prefixed fields are refused outright. */
  lemma BindsOnlyFields(input: Data, fingerprint: Data, operation: Operation, owner: Option<Data>)
    requires Binds(input, fingerprint, operation, owner)
    ensures exists fields :: Short(fields) && |fields| == 9 && input == Encoded(fields)
  {
    ParsedIsEncoded(input);
    var fields := Parsed(input).value;
    assert Short(fields) && |fields| == 9 && input == Encoded(fields);
  }

  /** The relay's statement is signed exactly when it is about what the publisher meant. */
  lemma SignsIffMeant(s: Statement, fingerprint: Data, operation: Operation, owner: Option<Data>)
    requires s.Fits()
    ensures Binds(s.Encode(), fingerprint, operation, owner) <==>
              (s.operation == operation && s.keyFingerprint == fingerprint
               && (owner.Some? ==> s.ownerIdentity == owner.value))
  {
    hide Binds, Encoded, Ascii, Operation.Name;
    BindsIff(s.Fields(), fingerprint, operation, owner);
    if s.operation.Name() == operation.Name() {
      NamesDiffer(s.operation, operation);
    }
  }
}
