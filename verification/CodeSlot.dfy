/** The length-prefixed contract code kept in one storage slot. */
module CodeSlot {
  import opened Wrappers
  import opened Base64
  import opened StorageView

  const ACCEPTED: string := "accepted"

  /** The slot's contents: a 4-byte length, then the code. None is the overflow error. */
  function CodeBlob(code: Bytes): Option<Bytes> {
    match LengthPrefix(|code|)
    case None => None
    case Some(prefix) => Some(prefix + code)
  }

  /** What reading the deployed code answers, as base64; None when the slot is missing, empty or
      undecodable. */
  function ExtractDeployedCode(accepted: Bucket, codeSlot: Bytes): Option<string> {
    var key := Encode(codeSlot);
    if key !in accepted || accepted[key] == "" then None
    else match Decode(accepted[key])
      case None => None
      case Some(raw) =>
        var header := if |raw| < 4 then raw else raw[..4];
        var codeLen := FromLittleEndian(header);
        var end := if 4 + codeLen <= |raw| then 4 + codeLen else |raw|;
        Some(Encode(if |raw| < 4 then [] else raw[4..end]))
  }

  /** The state tree after an upgrade transaction: the encoded blob replaces the slot's value. */
  function UpgradedState(state: Bucket, codeSlot: Bytes, code: Bytes): Option<Bucket> {
    match CodeBlob(code)
    case None => None
    case Some(blob) => Some(state[Encode(codeSlot) := Encode(blob)])
  }

  /** The layout of the slot: four bytes of length, the lowest first, and then the code. */
  lemma LayoutOfBlob(code: Bytes)
    ensures CodeBlob(code).Some? <==> |code| < 0x1_0000_0000
    ensures CodeBlob(code).Some? ==>
      var blob := CodeBlob(code).value;
      && |blob| == 4 + |code| && blob[4..] == code
      && |code| == blob[0] as int + 256 * blob[1] as int + 65536 * blob[2] as int + 16777216 * blob[3] as int
  {
    if |code| < 0x1_0000_0000 {
      var blob := CodeBlob(code).value;
      Digits(|code|);
      assert blob[4..] == code;
    }
  }

  /** What is extracted from any stored text: nothing from a slot that is missing, empty or not base64, and
      otherwise as many bytes behind the first four as those say, or as there are. */
  lemma WhatIsExtracted(accepted: Bucket, codeSlot: Bytes)
    ensures ExtractDeployedCode(accepted, codeSlot).None? <==>
      Encode(codeSlot) !in accepted || accepted[Encode(codeSlot)] == "" || Decode(accepted[Encode(codeSlot)]).None?
    ensures ExtractDeployedCode(accepted, codeSlot).Some? ==>
      var raw := Decode(accepted[Encode(codeSlot)]).value;
      && (|raw| <= 4 ==> ExtractDeployedCode(accepted, codeSlot) == Some(""))
      && (|raw| > 4 ==>
            var n := raw[0] as int + 256 * raw[1] as int + 65536 * raw[2] as int + 16777216 * raw[3] as int;
            ExtractDeployedCode(accepted, codeSlot) == Some(Encode(if n < |raw| - 4 then raw[4..4 + n] else raw[4..])))
  {
    hide Decode;
    if ExtractDeployedCode(accepted, codeSlot).Some? {
      var raw := Decode(accepted[Encode(codeSlot)]).value;
      if |raw| >= 4 {
        FourDigits(raw[..4]);
        assert raw[4..|raw|] == raw[4..] && (|raw| == 4 ==> raw[4..4] == []);
      }
    }
  }

  /** Anything may follow the code in the slot. */
  lemma ExtractionFindsCode(accepted: Bucket, codeSlot: Bytes, code: Bytes, rest: Bytes)
    requires |code| < LENGTH_LIMIT
    requires Encode(codeSlot) in accepted && accepted[Encode(codeSlot)] == Encode(CodeBlob(code).value + rest)
    ensures ExtractDeployedCode(accepted, codeSlot) == Some(Encode(code))
  {
    hide Encode, Decode, FromLittleEndian;
    var raw := CodeBlob(code).value + rest;
    DecodeOfEncode(raw);
    EmptyText();
    LengthRoundTrip(|code|, code + rest);
    assert raw == LengthPrefix(|code|).value + (code + rest);
    assert raw[4..4 + |code|] == code;
  }

  lemma EmptyText()
    ensures Decode("") == Some([])
  {}

  /** Extraction returns exactly the code of the last upgrade, and fails only when the code is too
      long for its length prefix. */
  lemma UpgradeThenExtract(state: Bucket, codeSlot: Bytes, code: Bytes)
    ensures UpgradedState(state, codeSlot, code).Some? <==> |code| < LENGTH_LIMIT
    ensures |code| < LENGTH_LIMIT ==>
      var state' := UpgradedState(state, codeSlot, code).value;
      && ExtractDeployedCode(state', codeSlot) == Some(Encode(code))
      && (forall slot: Bytes :: slot != codeSlot ==> SlotValue(state', slot) == SlotValue(state, slot))
  {
    hide Encode, Decode;
    if |code| < LENGTH_LIMIT {
      var state' := UpgradedState(state, codeSlot, code).value;
      assert CodeBlob(code).value + [] == CodeBlob(code).value;
      ExtractionFindsCode(state', codeSlot, code, []);
      forall slot: Bytes | slot != codeSlot ensures SlotValue(state', slot) == SlotValue(state, slot) {
        BucketWrite(state, codeSlot, CodeBlob(code).value, slot);
      }
    }
  }

  lemma OverwriteFromStart(existing: Bytes, data: Bytes) returns (rest: Bytes)
    ensures Overwritten(existing, 0, data) == data + rest
  {
    rest := Overwritten(existing, 0, data)[|data|..];
    forall i | 0 <= i < |data| ensures Overwritten(existing, 0, data)[i] == data[i] {
      assert ByteAt(Overwritten(existing, 0, data), i) == data[i];
    }
  }

  /** Deployment writes the blob through the storage view, over whatever the slot held: when it
      succeeds, extraction returns exactly this code, even over a longer older one. */
  method PutCodeTo(view: SnapshotView, codeSlot: Bytes, code: Bytes) returns (ok: bool)
    requires view.Valid() && view.stateStatus == ACCEPTED
    modifies view, view.decodedCache
    ensures view.Valid() && ok == (!view.readonly && |code| < LENGTH_LIMIT)
    ensures !ok ==> view.snapshot == old(view.snapshot)
    ensures ok ==> ExtractDeployedCode(BucketOf(view.snapshot, ACCEPTED), codeSlot) == Some(Encode(code))
    ensures ok ==> forall slot: Bytes :: slot != codeSlot ==>
      SlotValue(BucketOf(view.snapshot, ACCEPTED), slot) == old(SlotValue(BucketOf(view.snapshot, ACCEPTED), slot))
  {
    hide Encode, Decode, Overwritten, ExtractDeployedCode;
    var blob := CodeBlob(code);
    if blob.None? {
      return false;
    }
    ghost var before := BucketOf(view.snapshot, ACCEPTED);
    ok := view.StorageWrite(codeSlot, 0, blob.value);
    if ok {
      ghost var value := Overwritten(SlotValue(before, codeSlot), 0, blob.value);
      ghost var rest := OverwriteFromStart(SlotValue(before, codeSlot), blob.value);
      ExtractionFindsCode(BucketOf(view.snapshot, ACCEPTED), codeSlot, code, rest);
      forall slot: Bytes | slot != codeSlot
        ensures SlotValue(BucketOf(view.snapshot, ACCEPTED), slot) == SlotValue(before, slot)
      {
        BucketWrite(before, codeSlot, value, slot);
      }
    }
  }
}
