/** The `combinations.json` document as a value: reading out the caption
    of every record, and patching a run of captions in place
    (`read_combinations_and_get_array_of_just_captions`, `write_to_file`).
    A failed call leaves the file as it was: the document is only dumped
    after the whole patch loop has run. */
module CaptionFile {
  import opened Outcomes
  import opened JsonValues

  const CombinationsKey: string := "combinations"
  const CaptionKey: string := "caption"

  datatype FileError =
    | NotAnObject                  // `data.get` on a document that is not a dict
    | NotIterable                  // `for obj in combinations` over null, a number or a bool
    | RecordNotAnObject(index: nat)  // a record that is not a dict
    | CombinationsNotAList         // `combinations[i + j]` on something other than a list
    | IndexOutOfRange(index: nat)  // `combinations[i + j]` past the end of the list
    | ReplyHasNoLength             // `len(rewritten_captions)` on null, a number or a bool
    | ReplyNotIndexable            // `rewritten_captions[0]` on a non-empty dict

  /** A document whose `combinations` entry is a list of records. */
  predicate WellFormed(data: Json) {
    && data.Obj?
    && CombinationsKey in data.fields
    && data.fields[CombinationsKey].Arr?
    && forall k :: 0 <= k < |data.fields[CombinationsKey].items| ==>
         data.fields[CombinationsKey].items[k].Obj?
  }

  function Records(data: Json): seq<Json>
    requires WellFormed(data)
  {
    data.fields[CombinationsKey].items
  }

  /** Index of the first record of `items` that is not a dict, if any. */
  function FirstNonRecord(items: seq<Json>): (r: Option<nat>)
    ensures r.None? <==> forall k :: 0 <= k < |items| ==> items[k].Obj?
    ensures r.Some? ==> r.value < |items| && !items[r.value].Obj?
                        && forall k :: 0 <= k < r.value ==> items[k].Obj?
    decreases |items|
  {
    if |items| == 0 then None
    else if !items[0].Obj? then Some(0)
    else
      match FirstNonRecord(items[1..])
      case None => None
      case Some(k) => Some(k + 1)
  }

  /** `[obj.get('caption') for obj in data.get('combinations')]`. */
  function ReadCaptions(data: Json): (r: Result<seq<Json>, FileError>)
    ensures WellFormed(data) ==>
              && r.Ok?
              && |r.value| == |Records(data)|
              && forall k :: 0 <= k < |Records(data)| ==>
                   r.value[k] == Get(Records(data)[k].fields, CaptionKey)
    ensures !data.Obj? ==> r == Err(NotAnObject)
    ensures data.Obj? && Get(data.fields, CombinationsKey).Arr?
            && FirstNonRecord(Get(data.fields, CombinationsKey).items).Some?
            ==> r == Err(RecordNotAnObject(FirstNonRecord(Get(data.fields, CombinationsKey).items).value))
  {
    if !data.Obj? then Err(NotAnObject)
    else
      match Get(data.fields, CombinationsKey)
      case Arr(items) =>
        (match FirstNonRecord(items)
         case Some(k) => Err(RecordNotAnObject(k))
         case None => Ok(seq(|items|, k requires 0 <= k < |items| => Get(items[k].fields, CaptionKey))))
      // iterating a string yields its characters, a dict its keys: only
      // an empty one gets through the loop without calling `.get` on a str
      case Str(s) => if |s| == 0 then Ok([]) else Err(RecordNotAnObject(0))
      case Obj(f) => if |f| == 0 then Ok([]) else Err(RecordNotAnObject(0))
      case _ => Err(NotIterable)
  }

  /** Records `at .. at + n` exist and are dicts, so each can take a caption. */
  predicate Writable(items: seq<Json>, at: nat, n: nat) {
    forall k :: at <= k < at + n ==> IsRecordAt(items, k)
  }

  /** Record `k` exists and is a dict. */
  predicate IsRecordAt(items: seq<Json>, k: int) {
    0 <= k < |items| && items[k].Obj?
  }

  /** The record with its caption replaced and every other field kept. */
  function WithCaption(rec: Json, caption: Json): Json
    requires rec.Obj?
  {
    Obj(rec.fields[CaptionKey := caption])
  }

  /** The `while j < len(rewritten_captions)` loop of `write_to_file`,
      writing `r[j]` into the caption of record `at + j` for j = 0, 1, …;
      the first slot that cannot be written stops it with an error. */
  function Patch(items: seq<Json>, at: nat, r: seq<Json>): Result<seq<Json>, FileError>
    decreases |r|
  {
    if |r| == 0 then Ok(items)
    else if at >= |items| then Err(IndexOutOfRange(at))
    else if !items[at].Obj? then Err(RecordNotAnObject(at))
    else Patch(items[at := WithCaption(items[at], r[0])], at + 1, r[1..])
  }

  /** The patch succeeds exactly when every slot it writes holds a record;
      it then replaces the captions of records `at .. at + |r|` by `r`, in
      order, and leaves everything else as it was. Otherwise it fails at
      the first slot that is missing (`IndexOutOfRange`) or not a dict
      (`RecordNotAnObject`). */
  lemma {:induction false} PatchSpec(items: seq<Json>, at: nat, r: seq<Json>)
    ensures var res := Patch(items, at, r);
            && (res.Ok? <==> Writable(items, at, |r|))
            && (res.Ok? ==>
                  && |res.value| == |items|
                  && (|r| > 0 ==> at + |r| <= |items|)
                  && (forall k :: 0 <= k < |items| && !(at <= k < at + |r|) ==> res.value[k] == items[k])
                  && (forall k :: at <= k < at + |r| ==>
                        IsRecordAt(items, k) && res.value[k] == WithCaption(items[k], r[k - at])))
            && (res.Err? ==>
                  && (res.error.IndexOutOfRange? || res.error.RecordNotAnObject?)
                  && at <= res.error.index < at + |r|
                  && Writable(items, at, res.error.index - at)
                  && (res.error.IndexOutOfRange? <==> res.error.index >= |items|)
                  && (res.error.RecordNotAnObject? ==> !items[res.error.index].Obj?))
    decreases |r|
  {
    if |r| == 0 {
    } else if at >= |items| {
      assert !IsRecordAt(items, at);
    } else if !items[at].Obj? {
      assert !IsRecordAt(items, at);
    } else {
      var next := items[at := WithCaption(items[at], r[0])];
      PatchSpec(next, at + 1, r[1..]);
      WritableStep(items, next, at, |r| - 1);
      var res := Patch(next, at + 1, r[1..]);
      if res.Err? {
        WritableStep(items, next, at, res.error.index - at - 1);
      }
    }
  }

  /** Writing the first slot changes nothing about whether the rest can be
      written. */
  lemma WritableStep(items: seq<Json>, next: seq<Json>, at: nat, n: nat)
    requires at < |items| && items[at].Obj? && |next| == |items|
    requires forall k :: at < k < |items| ==> next[k] == items[k]
    ensures Writable(items, at, n + 1) <==> Writable(next, at + 1, n)
  {
    assert forall k :: at < k ==> (IsRecordAt(items, k) <==> IsRecordAt(next, k));
    assert IsRecordAt(items, at);
  }

  /** The captions `len(reply)` will be taken from: a list as it is, a string
      character by character, an empty dict as nothing; indexing a
      non-empty dict with 0 fails, and other values have no length. */
  function ReplyItems(reply: Json): (r: Result<seq<Json>, FileError>)
    ensures reply.Arr? ==> r == Ok(reply.items)
    ensures reply.Str? ==> r.Ok? && |r.value| == |reply.s|
                           && forall k :: 0 <= k < |reply.s| ==> r.value[k] == Str([reply.s[k]])
    ensures r.Ok? ==> reply.Arr? || reply.Str? || reply == Obj(map[])
  {
    match reply
    case Arr(items) => Ok(items)
    case Str(s) => Ok(seq(|s|, k requires 0 <= k < |s| => Str([s[k]])))
    case Obj(f) => if |f| == 0 then Ok([]) else Err(ReplyNotIndexable)
    case _ => Err(ReplyHasNoLength)
  }

  /** `write_to_file(i, reply)` applied to the document `data`: the new
      document on success, the error otherwise. */
  function WriteToFile(data: Json, i: nat, reply: Json): (r: Result<Json, FileError>)
    ensures !data.Obj? ==> r == Err(NotAnObject)
    ensures data.Obj? && ReplyItems(reply).Err? ==> r == Err(ReplyItems(reply).error)
    ensures data.Obj? && ReplyItems(reply) == Ok([]) ==>
              r == Ok(Obj(data.fields[CombinationsKey := Get(data.fields, CombinationsKey)]))
  {
    if !data.Obj? then Err(NotAnObject)
    else
      match ReplyItems(reply)
      case Err(e) => Err(e)
      case Ok(items) =>
        var combinations := Get(data.fields, CombinationsKey);
        if |items| == 0 then Ok(Obj(data.fields[CombinationsKey := combinations]))
        else if !combinations.Arr? then Err(CombinationsNotAList)
        else
          match Patch(combinations.items, i, items)
          case Err(e) => Err(e)
          case Ok(patched) => Ok(Obj(data.fields[CombinationsKey := Arr(patched)]))
  }

  /** On a well-formed document with a list reply, the write succeeds exactly
      when `i + |reply|` does not pass the last record; it then replaces the
      captions of records `i .. i + |reply|` by the reply, in order, and keeps
      the record count, every other record, every other field of the
      patched records and every other entry of the document. */
  lemma WriteListReply(data: Json, i: nat, reply: seq<Json>)
    requires WellFormed(data)
    ensures WriteToFile(data, i, Arr(reply)).Ok? <==> |reply| == 0 || i + |reply| <= |Records(data)|
    ensures |reply| > 0 && i + |reply| > |Records(data)| ==>
              WriteToFile(data, i, Arr(reply))
                == Err(IndexOutOfRange(if i < |Records(data)| then |Records(data)| else i))
    ensures WriteToFile(data, i, Arr(reply)).Ok? ==>
              var out := WriteToFile(data, i, Arr(reply)).value;
              && WellFormed(out)
              && out.fields.Keys == data.fields.Keys
              && (forall key :: key in data.fields && key != CombinationsKey ==> out.fields[key] == data.fields[key])
              && |Records(out)| == |Records(data)|
              && (forall k :: 0 <= k < |Records(data)| && !(i <= k < i + |reply|) ==>
                    Records(out)[k] == Records(data)[k])
              && (forall k :: i <= k < i + |reply| ==>
                    && CaptionKey in Records(out)[k].fields
                    && Records(out)[k].fields[CaptionKey] == reply[k - i]
                    && Records(out)[k].fields.Keys == Records(data)[k].fields.Keys + {CaptionKey}
                    && forall key :: key in Records(data)[k].fields && key != CaptionKey ==>
                         Records(out)[k].fields[key] == Records(data)[k].fields[key])
    ensures reply == [] ==> WriteToFile(data, i, Arr(reply)) == Ok(data)
  {
    var items := Records(data);
    PatchSpec(items, i, reply);
    if reply == [] {
      assert data.fields[CombinationsKey := data.fields[CombinationsKey]] == data.fields;
    } else {
      var p := Patch(items, i, reply);
      if i + |reply| > |items| {
        var k := if i < |items| then |items| else i;
        assert i <= k < i + |reply| && k >= |items|;
        assert !Writable(items, i, |reply|);
        var idx := p.error.index;
        assert idx >= |items|;
        if idx > i {
          assert IsRecordAt(items, idx - 1);
        }
      } else {
        assert Writable(items, i, |reply|);
      }
    }
  }

  /** Reading back after a successful write: the captions in the patched
      range are the reply, all others are what they were. */
  lemma ReadAfterWrite(data: Json, i: nat, reply: seq<Json>)
    requires WellFormed(data)
    requires i + |reply| <= |Records(data)|
    ensures WriteToFile(data, i, Arr(reply)).Ok?
    ensures ReadCaptions(WriteToFile(data, i, Arr(reply)).value).Ok?
    ensures var before := ReadCaptions(data).value;
            var after := ReadCaptions(WriteToFile(data, i, Arr(reply)).value).value;
            && |after| == |before|
            && after[i..i + |reply|] == reply
            && after[..i] == before[..i]
            && after[i + |reply|..] == before[i + |reply|..]
  {
    WriteListReply(data, i, reply);
  }

  /** Two writes to adjacent ranges are one write of the concatenated
      replies. */
  lemma {:induction false} PatchAppend(items: seq<Json>, at: nat, r1: seq<Json>, r2: seq<Json>)
    requires Patch(items, at, r1).Ok?
    ensures Patch(items, at, r1 + r2) == Patch(Patch(items, at, r1).value, at + |r1|, r2)
    decreases |r1|
  {
    PatchSpec(items, at, r1);
    if |r1| > 0 {
      var next := items[at := WithCaption(items[at], r1[0])];
      assert (r1 + r2)[0] == r1[0];
      assert (r1 + r2)[1..] == r1[1..] + r2;
      PatchAppend(next, at + 1, r1[1..], r2);
    } else {
      assert r1 + r2 == r2;
    }
  }
}
