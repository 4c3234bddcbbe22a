/**
 The byte strings that are hashed into identities or signed. Every field is preceded by its length,
 so that different fields never make the same string.
 */
module Encodings {
  import opened Basics

  type byte = x: int | 0 <= x < 256

  type Bytes = seq<byte>

  // ---- Numbers ----

  /** `n` in `width` bytes, most significant first. */
  function BigEndian(n: nat, width: nat): (s: Bytes)
    ensures |s| == width
  {
    if width == 0 then [] else BigEndian(n / 256, width - 1) + [n % 256]
  }

  function Number(s: Bytes): nat {
    if s == [] then 0 else Number(s[..|s| - 1]) * 256 + s[|s| - 1]
  }

  function Capacity(width: nat): nat {
    if width == 0 then 1 else 256 * Capacity(width - 1)
  }

  lemma {:induction false} NumberRoundTrip(n: nat, width: nat)
    requires n < Capacity(width)
    ensures Number(BigEndian(n, width)) == n
  {
    if width > 0 {
      NumberRoundTrip(n / 256, width - 1);
      var s := BigEndian(n, width);
      assert s[..|s| - 1] == BigEndian(n / 256, width - 1);
    }
  }

  function Decimal(n: nat): (s: Bytes)
    ensures s != []
  {
    if n < 10 then [48 + n] else Decimal(n / 10) + [48 + n % 10]
  }

  function DecimalValue(s: Bytes): int {
    if s == [] then 0 else DecimalValue(s[..|s| - 1]) * 10 + s[|s| - 1] - 48
  }

  lemma {:induction false} DecimalRoundTrip(n: nat)
    ensures DecimalValue(Decimal(n)) == n
  {
    var s := Decimal(n);
    if n < 10 {
      assert s[..|s| - 1] == [];
    } else {
      DecimalRoundTrip(n / 10);
      assert s[..|s| - 1] == Decimal(n / 10);
    }
  }

  // ---- Fields ----

  /** A string that exists in memory has a length of 64 bits. */
  predicate Fits(field: Bytes) {
    |field| <= U64_MAX
  }

  function Field(field: Bytes): Bytes {
    BigEndian(|field|, 8) + field
  }

  function Fields(fields: seq<Bytes>): Bytes {
    if fields == [] then [] else Field(fields[0]) + Fields(fields[1..])
  }

  /** Read one field from the front. */
  function TakeField(s: Bytes): Option<(Bytes, Bytes)> {
    if |s| < 8 || Number(s[..8]) > |s| - 8 then None
    else Some((s[8..8 + Number(s[..8])], s[8 + Number(s[..8])..]))
  }

  lemma CapacityOfEight()
    ensures Capacity(8) == U64_MAX + 1
  {
  }

  /** Reading gives back the field and leaves what follows. */
  lemma FieldRoundTrip(field: Bytes, rest: Bytes)
    requires Fits(field)
    ensures TakeField(Field(field) + rest) == Some((field, rest))
  {
    CapacityOfEight();
    NumberRoundTrip(|field|, 8);
    var s := Field(field) + rest;
    assert s[..8] == BigEndian(|field|, 8);
    assert s[8..8 + |field|] == field && s[8 + |field|..] == rest;
  }

  lemma FirstField(fields: seq<Bytes>, rest: Bytes)
    requires fields != [] && Fits(fields[0])
    ensures TakeField(Fields(fields) + rest) == Some((fields[0], Fields(fields[1..]) + rest))
  {
    assert Fields(fields) + rest == Field(fields[0]) + (Fields(fields[1..]) + rest);
    FieldRoundTrip(fields[0], Fields(fields[1..]) + rest);
  }

  /** Fields followed by anything determine the fields and what follows. */
  lemma {:induction false} FieldsDetermine(a: seq<Bytes>, b: seq<Bytes>, x: Bytes, y: Bytes)
    requires |a| == |b| && Fields(a) + x == Fields(b) + y
    requires forall field :: field in a || field in b ==> Fits(field)
    ensures a == b && x == y
  {
    if a == [] {
      assert Fields(a) + x == x && Fields(b) + y == y;
    } else {
      FirstField(a, x);
      FirstField(b, y);
      FieldsDetermine(a[1..], b[1..], x, y);
      assert a == [a[0]] + a[1..] && b == [b[0]] + b[1..];
    }
  }

  method AppendFields(fields: seq<Bytes>) returns (bytes: Bytes)
    ensures bytes == Fields(fields)
  {
    bytes := [];
    assert fields[0..] == fields;
    for i := 0 to |fields|
      invariant bytes + Fields(fields[i..]) == Fields(fields)
    {
      assert fields[i..][0] == fields[i] && fields[i..][1..] == fields[i + 1..];
      bytes := bytes + BigEndian(|fields[i]|, 8);
      bytes := bytes + fields[i];
    }
  }

  /** Text of the program itself is ASCII. */
  function Ascii(text: string): (s: Bytes)
    requires forall i :: 0 <= i < |text| ==> text[i] < 128 as char
    ensures |s| == |text| && forall i :: 0 <= i < |text| ==> s[i] == text[i] as int
  {
    seq(|text|, i requires 0 <= i < |text| => text[i] as int)
  }

  // ---- Signed strings ----

  const SIGNATURE_DOMAIN: Bytes := Ascii("lili-forwarding-v1")
  const EVIDENCE_SIGNATURE_DOMAIN: Bytes := Ascii("lili-evidence-v1")

  function SigningBytes(payload: Bytes): Bytes {
    Fields([SIGNATURE_DOMAIN, payload])
  }

  function EvidenceSigningBytes(domain: Bytes, payload: Bytes): Bytes {
    Fields([EVIDENCE_SIGNATURE_DOMAIN, domain, payload])
  }

  /** What is signed determines the domain and the payload. */
  lemma EvidenceDetermines(domain: Bytes, payload: Bytes, domain': Bytes, payload': Bytes)
    requires Fits(domain) && Fits(payload) && Fits(domain') && Fits(payload')
    ensures EvidenceSigningBytes(domain, payload) == EvidenceSigningBytes(domain', payload')
            <==> domain == domain' && payload == payload'
  {
    var a, b := [EVIDENCE_SIGNATURE_DOMAIN, domain, payload], [EVIDENCE_SIGNATURE_DOMAIN, domain', payload'];
    if EvidenceSigningBytes(domain, payload) == EvidenceSigningBytes(domain', payload') {
      FieldsDetermine(a, b, [], []);
      assert a[1] == b[1] && a[2] == b[2];
    }
  }

  /** A signed message can never pass for signed evidence. */
  lemma DomainsAreSeparate(message: Bytes, domain: Bytes, payload: Bytes)
    requires Fits(message) && Fits(domain) && Fits(payload)
    ensures SigningBytes(message) != EvidenceSigningBytes(domain, payload)
  {
    FirstField([SIGNATURE_DOMAIN, message], []);
    FirstField([EVIDENCE_SIGNATURE_DOMAIN, domain, payload], []);
    assert |SIGNATURE_DOMAIN| != |EVIDENCE_SIGNATURE_DOMAIN|;
    assert SigningBytes(message) + [] == SigningBytes(message);
    assert EvidenceSigningBytes(domain, payload) + [] == EvidenceSigningBytes(domain, payload);
  }
}
