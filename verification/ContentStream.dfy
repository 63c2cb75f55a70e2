/**
 * The byte stream behind a package's content hash: length-prefixed fields of the archive the user
 * supplied. The hash itself is left to the digest; what is proved is that the stream determines the
 * content and the content determines the stream.
 */
module ContentStream {
  import opened Common

  const COLON: byte := 58
  const ZERO: byte := 48
  const SLASH: byte := 47

  /** Source text as bytes; the labels below are ASCII. */
  function Ascii(s: string): (b: Bytes)
    ensures |b| == |s|
  {
    seq(|s|, i requires 0 <= i < |s| => (s[i] as int % 256) as byte)
  }

  // ---------------------------------------------------------------------------------------------
  // Fields
  // ---------------------------------------------------------------------------------------------

  function Decimal(n: nat): (d: Bytes)
    ensures d != []
    ensures forall i | 0 <= i < |d| :: ZERO <= d[i] <= ZERO + 9
  {
    if n < 10 then [(48 + n) as byte] else Decimal(n / 10) + [(48 + n % 10) as byte]
  }

  function Field(b: Bytes): Bytes {
    Decimal(|b|) + [COLON] + b
  }

  function Encode(fields: seq<Bytes>): Bytes {
    if fields == [] then [] else Field(fields[0]) + Encode(fields[1..])
  }

  /** The number that a run of digits spells. */
  function Number(d: Bytes): int {
    if d == [] then 0 else Number(d[..|d| - 1]) * 10 + (d[|d| - 1] as int - 48)
  }

  function Find(s: Bytes, b: byte): (i: nat)
    ensures i <= |s|
  {
    if s == [] || s[0] == b then 0 else 1 + Find(s[1..], b)
  }

  /** Reads fields off the stream until it is used up. */
  function Decode(s: Bytes): Option<seq<Bytes>>
    decreases |s|
  {
    if s == [] then Some([])
    else
      var colon := Find(s, COLON);
      var size := Number(s[..colon]);
      if colon == |s| || size < 0 || colon + 1 + size > |s| then None
      else
        match Decode(s[colon + 1 + size..])
        case None => None
        case Some(rest) => Some([s[colon + 1..colon + 1 + size]] + rest)
  }

  lemma {:induction false} NumberOfDecimal(n: nat)
    ensures Number(Decimal(n)) == n
  {
    if n >= 10 {
      NumberOfDecimal(n / 10);
      var d := Decimal(n);
      assert d[..|d| - 1] == Decimal(n / 10);
    } else {
      assert Number([(48 + n) as byte]) == Number([]) * 10 + n;
    }
  }

  lemma {:induction false} FindAfter(digits: Bytes, b: byte, rest: Bytes)
    requires b !in digits
    ensures Find(digits + [b] + rest, b) == |digits|
  {
    if digits != [] {
      assert (digits + [b] + rest)[1..] == digits[1..] + [b] + rest;
      FindAfter(digits[1..], b, rest);
    }
  }

  lemma {:induction false} DecodeInvertsEncode(fields: seq<Bytes>)
    ensures Decode(Encode(fields)) == Some(fields)
  {
    if fields != [] {
      var b, rest, s := fields[0], Encode(fields[1..]), Encode(fields);
      var digits := Decimal(|b|);
      assert s == digits + [COLON] + (b + rest);
      FindAfter(digits, COLON, b + rest);
      assert s[..|digits|] == digits;
      NumberOfDecimal(|b|);
      assert s[|digits| + 1 + |b|..] == rest;
      assert s[|digits| + 1..|digits| + 1 + |b|] == b;
      DecodeInvertsEncode(fields[1..]);
      assert fields == [b] + fields[1..];
    }
  }

  // ---------------------------------------------------------------------------------------------
  // Archives
  // ---------------------------------------------------------------------------------------------

  datatype Oci = Oci(image: Bytes, digest: Bytes, subPath: Bytes)

  datatype Archive = Archive(kind: Bytes, oci: Option<Oci>, checksumType: Bytes, sum: Bytes, url: Bytes, literal: Bytes)

  datatype PackageSpec = PackageSpec(source: Archive, deployment: Archive)

  predicate IsEmpty(a: Archive) {
    a.literal == [] && a.url == [] && a.oci.None?
  }

  function OciFields(o: Option<Oci>): seq<Bytes> {
    match o
    case None => []
    case Some(oci) => [Ascii("oci"), oci.image, oci.digest, Trim(oci.subPath, SLASH)]
  }

  function OriginFields(a: Archive): seq<Bytes> {
    if a.sum != [] then [Ascii("checksum"), a.checksumType, a.sum] else [Ascii("url"), a.url]
  }

  function LiteralFields(literal: Bytes): seq<Bytes> {
    if literal != [] then [Ascii("literal"), literal] else []
  }

  function PayloadFields(a: Archive): seq<Bytes> {
    OriginFields(a) + LiteralFields(a.literal)
  }

  function ArchiveFields(title: Bytes, a: Archive): seq<Bytes> {
    [title, a.kind] + (OciFields(a.oci) + PayloadFields(a))
  }

  /** The content a package supplies: its source if it has one, else its deployment. */
  function Chosen(spec: PackageSpec): (Bytes, Archive) {
    if !IsEmpty(spec.source) then (Ascii("source"), spec.source) else (Ascii("deployment"), spec.deployment)
  }

  function Stream(spec: PackageSpec): Bytes {
    Encode(ArchiveFields(Chosen(spec).0, Chosen(spec).1))
  }

  /** Two archives deliver the same content. A checksum, when there is one, stands for the URL. */
  predicate SameContent(a: Archive, b: Archive) {
    && a.kind == b.kind
    && SameImage(a.oci, b.oci)
    && a.sum == b.sum
    && (if a.sum != [] then a.checksumType == b.checksumType else a.url == b.url)
    && a.literal == b.literal
  }

  lemma LabelsDiffer()
    ensures Ascii("source") != Ascii("deployment")
    ensures Ascii("oci") != Ascii("checksum") && Ascii("oci") != Ascii("url") && Ascii("checksum") != Ascii("url")
  {
    assert Ascii("oci")[0] == 111 && Ascii("url")[0] == 117;
    assert |Ascii("source")| == 6 && |Ascii("deployment")| == 10 && |Ascii("oci")| == 3 && |Ascii("checksum")| == 8;
  }

  lemma OriginDetermined(a: Archive, b: Archive)
    requires PayloadFields(a) == PayloadFields(b)
    ensures a.sum == b.sum && (if a.sum != [] then a.checksumType == b.checksumType else a.url == b.url) &&
            a.literal == b.literal
  {
    LabelsDiffer();
    var f, g := PayloadFields(a), PayloadFields(b);
    assert f[0] == OriginFields(a)[0] && g[0] == OriginFields(b)[0];
    assert f[1] == OriginFields(a)[1] && g[1] == OriginFields(b)[1];
    assert f[|OriginFields(a)|..] == LiteralFields(a.literal) && g[|OriginFields(b)|..] == LiteralFields(b.literal);
    if a.sum != [] {
      assert f[2] == a.sum && g[2] == b.sum;
    }
    assert LiteralFields(a.literal) == LiteralFields(b.literal);
    assert a.literal != [] ==> LiteralFields(a.literal)[1] == a.literal;
    assert b.literal != [] ==> LiteralFields(b.literal)[1] == b.literal;
  }

  lemma OciDetermined(o: Option<Oci>, ra: seq<Bytes>, p: Option<Oci>, rb: seq<Bytes>)
    requires OciFields(o) + ra == OciFields(p) + rb && ra != [] && rb != []
    requires ra[0] != Ascii("oci") && rb[0] != Ascii("oci")
    ensures OciFields(o) == OciFields(p) && ra == rb
  {
    var f, g := OciFields(o) + ra, OciFields(p) + rb;
    assert f[0] == if o.Some? then Ascii("oci") else ra[0];
    assert g[0] == if p.Some? then Ascii("oci") else rb[0];
    assert f[..|OciFields(o)|] == OciFields(o) && g[..|OciFields(p)|] == OciFields(p);
    assert f[|OciFields(o)|..] == ra && g[|OciFields(p)|..] == rb;
  }

  lemma HeadDetermined(t: Bytes, k: Bytes, x: seq<Bytes>, t': Bytes, k': Bytes, y: seq<Bytes>)
    requires [t, k] + x == [t', k'] + y
    ensures t == t' && k == k' && x == y
  {
    var f, g := [t, k] + x, [t', k'] + y;
    assert f[0] == t && g[0] == t' && f[1] == k && g[1] == k' && f[2..] == x && g[2..] == y;
  }

  predicate SameImage(o: Option<Oci>, p: Option<Oci>) {
    match (o, p)
    case (Some(x), Some(y)) => x.image == y.image && x.digest == y.digest &&
        Trim(x.subPath, SLASH) == Trim(y.subPath, SLASH)
    case (None, None) => true
    case _ => false
  }

  lemma ImageDetermined(o: Option<Oci>, p: Option<Oci>)
    ensures OciFields(o) == OciFields(p) <==> SameImage(o, p)
  {
    assert |OciFields(o)| == (if o.Some? then 4 else 0) && |OciFields(p)| == (if p.Some? then 4 else 0);
    if o.Some? && p.Some? && OciFields(o) == OciFields(p) {
      var x, y := OciFields(o), OciFields(p);
      assert x[1] == y[1] && x[2] == y[2] && x[3] == y[3];
    }
  }

  lemma ArchiveDetermined(title: Bytes, a: Archive, title': Bytes, b: Archive)
    requires ArchiveFields(title, a) == ArchiveFields(title', b)
    ensures title == title' && SameContent(a, b)
  {
    HeadDetermined(title, a.kind, OciFields(a.oci) + PayloadFields(a), title', b.kind,
                   OciFields(b.oci) + PayloadFields(b));
    PayloadIsNotImage(a);
    PayloadIsNotImage(b);
    OciDetermined(a.oci, PayloadFields(a), b.oci, PayloadFields(b));
    OriginDetermined(a, b);
    ImageDetermined(a.oci, b.oci);
  }

  lemma PayloadIsNotImage(a: Archive)
    ensures PayloadFields(a) != [] && PayloadFields(a)[0] != Ascii("oci")
  {
    LabelsDiffer();
    assert PayloadFields(a)[0] == OriginFields(a)[0];
  }

  /** An archive is supplied as a literal, by URL or as an image. */
  predicate Supplied(a: Archive) {
    a.literal != [] || a.url != [] || a.oci.Some?
  }

  /** The archive that counts. */
  function Content(p: PackageSpec): Archive {
    if Supplied(p.source) then p.source else p.deployment
  }

  /**
   * The stream is uniquely decodable: two packages give the same stream exactly when both or neither
   * supply a source, and the contents of the archive that counts agree.
   */
  lemma StreamDeterminesContent(p: PackageSpec, q: PackageSpec)
    ensures Stream(p) == Stream(q) <==>
            Supplied(p.source) == Supplied(q.source) && SameContent(Content(p), Content(q))
  {
    LabelsDiffer();
    var (l, a) := Chosen(p);
    var (m, b) := Chosen(q);
    if Stream(p) == Stream(q) {
      DecodeInvertsEncode(ArchiveFields(l, a));
      DecodeInvertsEncode(ArchiveFields(m, b));
      ArchiveDetermined(l, a, m, b);
    }
    if l == m && SameContent(a, b) {
      ImageDetermined(a.oci, b.oci);
      assert ArchiveFields(l, a) == ArchiveFields(m, b);
    }
  }

  /** What a build writes into the deployment of a source package is not a content change. */
  lemma BuildOutputIsNotContent(p: PackageSpec, built: Archive)
    requires Supplied(p.source)
    ensures Stream(p.(deployment := built)) == Stream(p)
  {
  }

  /** The fields of an archive by URL, with a checksum, with a literal, and of an image. */
  lemma FieldsSpelledOut(title: Bytes, kind: Bytes, x: Bytes, y: Bytes, z: Bytes)
    requires x != []
    ensures var plain := Archive(kind, None, [], [], [], []);
            && ArchiveFields(title, plain.(url := x)) == [title, kind, Ascii("url"), x]
            && ArchiveFields(title, plain.(url := y, checksumType := z, sum := x)) ==
               [title, kind, Ascii("checksum"), z, x]
            && ArchiveFields(title, plain.(literal := x)) == [title, kind, Ascii("url"), [], Ascii("literal"), x]
            && ArchiveFields(title, plain.(oci := Some(Oci(x, y, [SLASH])))) ==
               [title, kind, Ascii("oci"), x, y, [], Ascii("url"), []]
  {
    var slash, none: Bytes := [SLASH], [];
    assert slash[1..] == none && TrimLeft(none, SLASH) == none && TrimRight(none, SLASH) == none;
    assert TrimLeft(slash, SLASH) == none;
  }

  /** How a field is written. */
  lemma FieldSpelledOut()
    ensures Encode([Ascii("url"), Ascii("u")]) == Ascii("3:url1:u")
  {
    var fields := [Ascii("url"), Ascii("u")];
    assert fields[1..] == [Ascii("u")] && fields[1..][1..] == [];
  }

  // ---------------------------------------------------------------------------------------------
  // The code, writing into a digest
  // ---------------------------------------------------------------------------------------------

  class Digest {
    var written: Bytes
    ghost var fields: seq<Bytes>

    ghost predicate Valid()
      reads this
    {
      written == Encode(fields)
    }

    constructor ()
      ensures Valid() && written == [] && fields == []
    {
      written, fields := [], [];
    }

    method WriteBytes(b: Bytes)
      requires Valid()
      modifies this
      ensures Valid() && fields == old(fields) + [b]
    {
      EncodeMore(fields, b);
      written := written + Decimal(|b|) + [COLON];
      written := written + b;
      fields := fields + [b];
    }

    method HashOci(o: Option<Oci>)
      requires Valid()
      modifies this
      ensures Valid() && fields == old(fields) + OciFields(o)
    {
      if o.Some? {
        WriteBytes(Ascii("oci"));
        WriteBytes(o.value.image);
        WriteBytes(o.value.digest);
        WriteBytes(Trim(o.value.subPath, SLASH));
      }
    }

    method HashOrigin(a: Archive)
      requires Valid()
      modifies this
      ensures Valid() && fields == old(fields) + OriginFields(a)
    {
      if a.sum != [] {
        WriteBytes(Ascii("checksum"));
        WriteBytes(a.checksumType);
        WriteBytes(a.sum);
      } else {
        WriteBytes(Ascii("url"));
        WriteBytes(a.url);
      }
    }

    method HashPayload(a: Archive)
      requires Valid()
      modifies this
      ensures Valid() && fields == old(fields) + PayloadFields(a)
    {
      HashOrigin(a);
      if a.literal != [] {
        WriteBytes(Ascii("literal"));
        WriteBytes(a.literal);
      }
    }

    method HashArchive(title: Bytes, a: Archive)
      requires Valid()
      modifies this
      ensures Valid() && fields == old(fields) + ArchiveFields(title, a)
    {
      WriteBytes(title);
      WriteBytes(a.kind);
      assert fields == old(fields) + [title, a.kind];
      HashOci(a.oci);
      HashPayload(a);
      ConcatAssociates(old(fields), [title, a.kind], OciFields(a.oci), PayloadFields(a));
    }

    /** What goes into the digest of a package is its stream. */
    method PackageContentHash(spec: PackageSpec)
      requires Valid() && fields == []
      modifies this
      ensures written == Stream(spec)
    {
      if !IsEmpty(spec.source) {
        HashArchive(Ascii("source"), spec.source);
      } else {
        HashArchive(Ascii("deployment"), spec.deployment);
      }
      assert fields == ArchiveFields(Chosen(spec).0, Chosen(spec).1);
    }
  }

  lemma ConcatAssociates(a: seq<Bytes>, b: seq<Bytes>, c: seq<Bytes>, d: seq<Bytes>)
    ensures a + b + c + d == a + (b + (c + d))
  {
    assert a + b + c + d == a + (b + (c + d));
  }

  lemma {:induction false} EncodeMore(f: seq<Bytes>, b: Bytes)
    ensures Encode(f + [b]) == Encode(f) + Field(b)
  {
    if f == [] {
      assert f + [b] == [b] && [b][1..] == [];
    } else {
      assert (f + [b])[1..] == f[1..] + [b];
      EncodeMore(f[1..], b);
    }
  }
}
