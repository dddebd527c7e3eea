/**
  The task record of IkeMatrix and its Codable form.

  A `TaskItem` is a UUID and a text. It is stored with `JSONEncoder` and read back with
  `JSONDecoder`. Here the encoded data is a JSON value tree instead of UTF-8 bytes. The
  encoder writes each task as an object with an "id" member, which is the UUID string, and
  a "text" member. The decoder follows the synthesized `Decodable`: it needs both members as
  strings and a well-formed UUID string, it ignores any other members, and a list decodes
  only when every element does.
 */
module Tasks {
  import opened Wrappers

  /** An upper-case hexadecimal digit, as in `UUID.uuidString`. */
  predicate IsUpperHex(c: char) {
    '0' <= c <= '9' || 'A' <= c <= 'F'
  }

  /** A hexadecimal digit in either case, as `UUID(uuidString:)` accepts. */
  predicate IsHex(c: char) {
    IsUpperHex(c) || 'a' <= c <= 'f'
  }

  /** The positions of the hyphens in the 8-4-4-4-12 layout. */
  predicate IsHyphenAt(i: int) {
    i == 8 || i == 13 || i == 18 || i == 23
  }

  /** A string that `UUID(uuidString:)` parses: 36 characters, 32 hex digits of either case. */
  predicate IsUuidText(s: string) {
    |s| == 36 &&
    forall i :: 0 <= i < |s| ==> if IsHyphenAt(i) then s[i] == '-' else IsHex(s[i])
  }

  /** A string that `UUID.uuidString` produces: the same layout with upper-case digits. */
  predicate IsCanonicalUuid(s: string) {
    |s| == 36 &&
    forall i :: 0 <= i < |s| ==> if IsHyphenAt(i) then s[i] == '-' else IsUpperHex(s[i])
  }

  /**
    A UUID, identified with its canonical string. Two UUIDs are equal exactly when their
    canonical strings are, so string equality is Swift's UUID equality.
   */
  type Uuid = s: string | IsCanonicalUuid(s) witness "00000000-0000-0000-0000-000000000000"

  /** Upper-cases one hex digit and leaves every other character alone. */
  function UpperHex(c: char): (r: char)
    ensures IsHex(c) ==> IsUpperHex(r)
    ensures !('a' <= c <= 'f') ==> r == c
  {
    if 'a' <= c <= 'f' then (c as int - 32) as char else c
  }

  /** `UUID(uuidString:)`: a UUID for every well-formed string, in either case, and nil otherwise. */
  function ParseUuid(s: string): (r: Option<Uuid>)
    ensures r.Some? <==> IsUuidText(s)
    ensures r.Some? ==>
      |r.value| == |s| && forall i :: 0 <= i < |s| ==> r.value[i] == UpperHex(s[i])
    ensures IsCanonicalUuid(s) ==> r == Some(s)
  {
    if IsUuidText(s) then
      var u := seq(|s|, i requires 0 <= i < |s| => UpperHex(s[i]));
      assert IsCanonicalUuid(u);
      assert IsCanonicalUuid(s) ==> u == s;
      Some(u)
    else
      None
  }

  /**
    One task: a UUID that never changes and a text. Equality compares both fields, as Swift's
    synthesized `Equatable` does. The text is compared code point by code point, not by
    Unicode canonical equivalence as Swift's `String` is.
   */
  datatype TaskItem = TaskItem(id: Uuid, text: string)

  /** A JSON value, standing for the bytes `JSONEncoder` writes. */
  datatype Json =
    | JNull
    | JBool(b: bool)
    | JNumber(n: int)
    | JString(s: string)
    | JArray(items: seq<Json>)
    | JObject(members: map<string, Json>)

  /** The synthesized `Decodable` of `TaskItem`. */
  function DecodeTask(j: Json): (r: Option<TaskItem>)
    ensures r.Some? <==>
      j.JObject? && "id" in j.members && "text" in j.members &&
      j.members["id"].JString? && j.members["text"].JString? &&
      ParseUuid(j.members["id"].s).Some?
    ensures r.Some? ==>
      j.JObject? && "id" in j.members && "text" in j.members &&
      j.members["id"].JString? && ParseUuid(j.members["id"].s) == Some(r.value.id) &&
      j.members["text"] == JString(r.value.text)
  {
    match j
    case JObject(m) =>
      if "id" in m && "text" in m && m["id"].JString? && m["text"].JString? then
        match ParseUuid(m["id"].s)
        case Some(id) => Some(TaskItem(id, m["text"].s))
        case None => None
      else
        None
    case _ => None
  }

  /** The synthesized `Encodable` of `TaskItem`; the decoder gives the same task back. */
  function EncodeTask(t: TaskItem): (j: Json)
    ensures DecodeTask(j) == Some(t)
  {
    JObject(map["id" := JString(t.id), "text" := JString(t.text)])
  }

  /** Decodes the elements of a JSON array; one bad element fails the whole list. */
  function DecodeItems(items: seq<Json>): (r: Option<seq<TaskItem>>)
    ensures r.Some? ==>
      |r.value| == |items| && forall i :: 0 <= i < |items| ==> DecodeTask(items[i]) == Some(r.value[i])
    ensures r.None? ==> exists i :: 0 <= i < |items| && DecodeTask(items[i]).None?
  {
    if items == [] then
      Some([])
    else
      match DecodeTask(items[0])
      case None => None
      case Some(t) =>
        match DecodeItems(items[1..])
        case None => None
        case Some(ts) => Some([t] + ts)
  }

  /** Encodes each task of a list, in order; the elements decode back to the same list. */
  function EncodeItems(ts: seq<TaskItem>): (items: seq<Json>)
    ensures |items| == |ts|
    ensures DecodeItems(items) == Some(ts)
  {
    if ts == [] then
      []
    else
      var items := [EncodeTask(ts[0])] + EncodeItems(ts[1..]);
      assert items[0] == EncodeTask(ts[0]) && items[1..] == EncodeItems(ts[1..]);
      assert [ts[0]] + ts[1..] == ts;
      items
  }

  /** `JSONDecoder().decode([TaskItem].self, from:)`, with a thrown error as None. */
  function DecodeTasks(j: Json): (r: Option<seq<TaskItem>>)
    ensures !j.JArray? ==> r.None?
    ensures j.JArray? ==> r == DecodeItems(j.items)
  {
    match j
    case JArray(items) => DecodeItems(items)
    case _ => None
  }

  /** `JSONEncoder().encode(tasks)`: a JSON array that decodes to the same tasks in the same order. */
  function EncodeTasks(ts: seq<TaskItem>): (j: Json)
    ensures j.JArray? && |j.items| == |ts|
    ensures DecodeTasks(j) == Some(ts)
  {
    JArray(EncodeItems(ts))
  }

  /** Members other than "id" and "text" do not stop a task from decoding. */
  lemma DecodeIgnoresOtherMembers(t: TaskItem, extra: map<string, Json>)
    ensures DecodeTask(JObject(extra + EncodeTask(t).members)) == Some(t)
  {
    var m := extra + EncodeTask(t).members;
    assert m["id"] == JString(t.id) && m["text"] == JString(t.text);
  }

  /** A lower-case UUID string decodes to the same task as its upper-case form. */
  lemma DecodeAcceptsLowerCaseId(t: TaskItem, id: string)
    requires |id| == |t.id|
    requires forall i :: 0 <= i < |id| ==> UpperHex(id[i]) == t.id[i]
    requires IsUuidText(id)
    ensures DecodeTask(JObject(map["id" := JString(id), "text" := JString(t.text)])) == Some(t)
  {
    var p := ParseUuid(id);
    assert p.value == t.id;
  }
}
