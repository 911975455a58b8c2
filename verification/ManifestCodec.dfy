/** How manifests are stored and read back (`core/manifest/model.go`): one accepted
    text for each valid manifest. */
module ManifestCodec {
  import opened Wrappers
  import opened Manifest
  import opened JsonDecoder
  import opened CanonParse
  import opened CanonValue
  import opened CanonBytes
  import opened JsonRecord
  import opened ManifestJson
  import opened LaneJson

  const MAX_MANIFEST_BYTES: int := 0x10_0000

  /** How a manifest becomes a JSON value and back, and the bytes a text takes. */
  datatype Codec = Codec(write: Manifest -> Json, read: Json -> Option<Manifest>, size: Text -> nat)

  /** Reading inverts writing and gives what memory can hold. Nothing else is asked of
      `read`: on other values it may be as lenient as the source's decoder, which
      takes field names in any case. */
  ghost predicate Faithful(c: Codec) {
    && (forall m :: Fits(c.write(m)))
    && (forall m :: Storable(m) ==> c.read(Normal(c.write(m))) == Some(m))
    && (forall v :: c.read(v).Some? ==> Storable(c.read(v).value))
  }

  /** The field-by-field encoding, with its exact reading. */
  function LaneCodec(t: Times, size: Text -> nat): Codec {
    Codec(m => WriteLane(t, m), v => ReadLane(t, v), size)
  }

  lemma LaneCodecFaithful(t: Times, size: Text -> nat)
    requires TimesOk(t)
    ensures Faithful(LaneCodec(t, size))
  {
    forall m
      ensures Fits(WriteLane(t, m)) && Normal(WriteLane(t, m)) == WriteLane(t, m)
      ensures Storable(m) ==> ReadLane(t, WriteLane(t, m)) == Some(m)
    {
      LaneInverse(t, m);
      CanonicalIsNormal(WriteLane(t, m));
    }
    forall v | ReadLane(t, v).Some?
      ensures Storable(ReadLane(t, v).value)
    {
      ReadStorable(t, v);
    }
  }

  /** The canonical bytes of a normalized manifest. */
  ghost function Encode(c: Codec, m: Manifest): Text
    requires Faithful(c)
  {
    Printed(c.write(m))
  }

  /** `decode`. */
  ghost function Decode(c: Codec, hasher: Hasher, data: Text): Option<Manifest>
    requires Faithful(c)
  {
    if Bytes(data) != Success(data) then None
    else
      match c.read(Parse(data).value)
      case None => None
      case Some(m) =>
        match Normalize(hasher, m)
        case Failure(_) => None
        case Success(n) => if Encode(c, n) == data && Validate(hasher, n) == None then Some(n) else None
  }

  lemma ReadBack(c: Codec, m: Manifest)
    requires Faithful(c) && Storable(m)
    ensures var data := Encode(c, m);
            Bytes(data) == Success(data) && Parse(data).Success? && c.read(Parse(data).value) == Some(m)
  {
    var v := c.write(m);
    PrintedParses(v);
    NormalFixed(v);
  }

  /** `decode` accepts exactly the texts that normalized valid manifests encode to. */
  lemma DecodeIff(c: Codec, hasher: Hasher, data: Text, m: Manifest)
    requires Faithful(c)
    ensures Decode(c, hasher, data) == Some(m) <==> Valid(hasher, m) && Storable(m) && data == Encode(c, m)
  {
    ValidateIff(hasher, m);
    if Valid(hasher, m) && Storable(m) && data == Encode(c, m) {
      ReadBack(c, m);
      assert Normalize(hasher, m) == Success(m);
    }
  }

  /** No text encodes two manifests, so equal content hashes mean equal content. */
  lemma {:induction false} EncodeInjective(c: Codec, m: Manifest, n: Manifest)
    requires Faithful(c) && Storable(m) && Storable(n) && Encode(c, m) == Encode(c, n)
    ensures m == n
  {
    ReadBack(c, m);
    ReadBack(c, n);
  }

  /** `Load`: files above one MiB are not read. */
  ghost function LoadText(c: Codec, hasher: Hasher, data: Text): Option<Manifest>
    requires Faithful(c)
  {
    if c.size(data) > MAX_MANIFEST_BYTES then None else Decode(c, hasher, data)
  }

  /** A valid manifest loads again, with the content whose hash was returned, exactly
      when its text is at most one MiB: writes have no limit. */
  lemma {:induction false} LoadAfterStore(c: Codec, hasher: Hasher, m: Manifest)
    requires Faithful(c) && Valid(hasher, m) && IsInt64(m.schemaVersion) && DispatchInt64(m.dispatch)
    ensures LoadText(c, hasher, Encode(c, m)) ==
            if c.size(Encode(c, m)) <= 1_048_576 then Some(m) else None
  {
    KnownProper(m.state);
    KnownProper(m.blockedFrom);
    DecodeIff(c, hasher, Encode(c, m), m);
  }

  /** The contents `Create` and `Update` store are valid. */
  lemma StoredIsValid(hasher: Hasher, m: Manifest, base: Manifest, now: Instant)
    ensures Created(hasher, m, now).Some? ==> Valid(hasher, Created(hasher, m, now).value)
    ensures Updated(hasher, base, base, m, now).Some? ==> Valid(hasher, Updated(hasher, base, base, m, now).value)
  {
    if Created(hasher, m, now).Some? {
      ValidateIff(hasher, Created(hasher, m, now).value);
    }
    if Updated(hasher, base, base, m, now).Some? {
      ValidateIff(hasher, Updated(hasher, base, base, m, now).value);
    }
  }

  /** Every content that `Create` or `Update` stores loads again exactly when its text
      is at most one MiB. */
  lemma StoredLoads(c: Codec, hasher: Hasher, m: Manifest, base: Manifest, now: Instant, stored: Manifest)
    requires Faithful(c) && IsInt64(stored.schemaVersion) && DispatchInt64(stored.dispatch)
    requires Created(hasher, m, now) == Some(stored) || Updated(hasher, base, base, m, now) == Some(stored)
    ensures LoadText(c, hasher, Encode(c, stored)) ==
            if c.size(Encode(c, stored)) <= 1_048_576 then Some(stored) else None
  {
    StoredIsValid(hasher, m, base, now);
    LoadAfterStore(c, hasher, stored);
  }
}
