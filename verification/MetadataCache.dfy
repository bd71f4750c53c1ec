/**
 The metadata cache (src/o2gateway/persistence/metadata_cache.py): a table from paths to JSON payloads
 with an expiry time.
 */
module MetadataCache {
  import opened Wrappers
  import opened CloudTypes

  /** A JSON value. `JTime` is a string holding a date in ISO 8601 form. */
  datatype Json =
    | JNull
    | JBool(flag: bool)
    | JNumber(number: int)
    | JString(text: string)
    | JTime(time: int)
    | JPath(path: Path)
    | JObject(fields: map<string, Json>)

  type Payload = map<string, Json>

  function StringField(v: Option<string>): Json {
    if v.None? then JNull else JString(v.value)
  }

  function TimeField(v: Option<int>): Json {
    if v.None? then JNull else JTime(v.value)
  }

  /** `_encode_metadata` */
  function Encode(m: Metadata): Payload {
    map[
      "id" := JString(m.id),
      "name" := JString(m.name),
      "type" := JString(if m.isFolder then "folder" else "file"),
      "path" := JPath(m.path),
      "size" := if m.size.None? then JNull else JNumber(m.size.value),
      "created_at" := TimeField(m.createdAt),
      "modified_at" := TimeField(m.modifiedAt),
      "content_type" := StringField(m.contentType),
      "etag" := StringField(m.etag),
      "raw" := JObject(map k | k in m.raw :: JString(m.raw[k]))
    ]
  }

  /** `payload.get(key)` */
  function Field(payload: Payload, key: string): Json {
    if key in payload then payload[key] else JNull
  }

  function AsString(j: Json): Option<string> {
    if j.JString? then Some(j.text) else None
  }

  function AsTime(j: Json): Option<int> {
    if j.JTime? then Some(j.time) else None
  }

  function AsHints(j: Json): map<string, string> {
    if j.JObject? then map k | k in j.fields && j.fields[k].JString? :: j.fields[k].text else map[]
  }

  /** `_decode_metadata`; a payload without one of the four required keys is an error there. */
  function Decode(payload: Payload): Option<Metadata> {
    if && Field(payload, "id").JString?
       && Field(payload, "name").JString?
       && Field(payload, "type").JString?
       && Field(payload, "path").JPath?
    then
      var size := Field(payload, "size");
      Some(Metadata(
        payload["id"].text, payload["name"].text, payload["type"].text == "folder", payload["path"].path,
        if size.JNumber? && size.number >= 0 then Some(size.number) else None,
        AsTime(Field(payload, "created_at")), AsTime(Field(payload, "modified_at")),
        AsString(Field(payload, "content_type")), AsString(Field(payload, "etag")),
        AsHints(Field(payload, "raw"))))
    else
      None
  }

  /** What is written is what is read back, for every metadata value. */
  lemma DecodeEncode(m: Metadata)
    ensures Decode(Encode(m)) == Some(m)
    ensures "negative" !in Encode(m)
  {
    var hints := Encode(m)["raw"];
    assert AsHints(hints) == m.raw;
  }

  datatype Row = Row(payload: Payload, expiresAt: int)

  const NEGATIVE: Payload := map["negative" := JBool(true)]

  function Lookup(rows: map<Path, Row>, now: int, path: Path): Option<Metadata> {
    if path !in rows || rows[path].expiresAt < now then None
    else if Field(rows[path].payload, "negative") == JBool(true) then None
    else Decode(rows[path].payload)
  }

  /** A row is found at most until its time, and only at its own path. */
  lemma RowsRunOut(rows: map<Path, Row>, t: int, path: Path)
    ensures Lookup(rows, t, path).Some? ==> path in rows && t <= rows[path].expiresAt
  {
  }

  /** Until then it is found or not whatever the time. */
  lemma RowsStay(rows: map<Path, Row>, t: int, u: int, path: Path)
    requires path in rows && t <= rows[path].expiresAt && u <= rows[path].expiresAt
    ensures Lookup(rows, t, path) == Lookup(rows, u, path)
  {
  }

  /** Invalidated paths and their parents are found at no time; every other path as before. */
  lemma InvalidatedIsGone(rows: map<Path, Row>, paths: set<Path>, t: int, path: Path)
    ensures path in paths || (exists q :: q in paths && Parent(q) == path) ==> Lookup(Without(rows, paths), t, path).None?
    ensures path !in paths && (forall q :: q in paths ==> Parent(q) != path) ==> Lookup(Without(rows, paths), t, path) == Lookup(rows, t, path)
  {
    hide Decode;
  }

  /** The table without some paths and their parents. */
  function Without(rows: map<Path, Row>, paths: set<Path>): map<Path, Row> {
    rows - paths - set p | p in paths :: Parent(p)
  }

  /** The table after caching `items` in turn. */
  function PutAll(rows: map<Path, Row>, items: seq<Metadata>, expiresAt: int): map<Path, Row>
    decreases |items|
  {
    if items == [] then
      rows
    else
      var last := items[|items| - 1];
      PutAll(rows, items[..|items| - 1], expiresAt)[last.path := Row(Encode(last), expiresAt)]
  }

  /** Items with different paths cached in turn are all found, unchanged, until they expire. */
  lemma {:induction false} PutAllFinds(rows: map<Path, Row>, items: seq<Metadata>, expiresAt: int, now: int, i: nat)
    requires i < |items| && now <= expiresAt
    requires forall j, k :: 0 <= j < k < |items| ==> items[j].path != items[k].path
    ensures Lookup(PutAll(rows, items, expiresAt), now, items[i].path) == Some(items[i])
    decreases |items|
  {
    hide Lookup, Encode;
    var last := |items| - 1;
    var before := PutAll(rows, items[..last], expiresAt);
    if i < last {
      assert items[..last][i] == items[i] && items[i].path != items[last].path;
      PutAllFinds(rows, items[..last], expiresAt, now, i);
      PutElsewhere(before, items[last], expiresAt, now, items[i].path);
    } else {
      PutIsFound(before, items[last], expiresAt, now);
    }
  }

  lemma PutIsFound(rows: map<Path, Row>, item: Metadata, expiresAt: int, now: int)
    requires now <= expiresAt
    ensures Lookup(rows[item.path := Row(Encode(item), expiresAt)], now, item.path) == Some(item)
  {
    hide Encode, Decode;
    DecodeEncode(item);
  }

  lemma PutElsewhere(rows: map<Path, Row>, item: Metadata, expiresAt: int, now: int, path: Path)
    requires path != item.path
    ensures Lookup(rows[item.path := Row(Encode(item), expiresAt)], now, path) == Lookup(rows, now, path)
  {
    hide Encode, Decode;
  }

  class MetadataCache {
    const ttl: nat
    const negativeTtl: nat
    var rows: map<Path, Row>

    constructor (ttl: nat, negativeTtl: nat)
      ensures rows == map[] && this.ttl == ttl && this.negativeTtl == negativeTtl
    {
      this.ttl, this.negativeTtl, this.rows := ttl, negativeTtl, map[];
    }

    method Get(path: Path, now: int) returns (item: Option<Metadata>)
      ensures item == Lookup(rows, now, path)
      ensures item.Some? ==> path in rows && now <= rows[path].expiresAt
    {
      if path !in rows || rows[path].expiresAt < now {
        return None;
      }
      var payload := rows[path].payload;
      if Field(payload, "negative") == JBool(true) {
        return None;
      }
      item := Decode(payload);
    }

    method Put(item: Metadata, now: int)
      modifies this
      ensures rows == old(rows)[item.path := Row(Encode(item), now + ttl)]
      ensures forall t :: Lookup(rows, t, item.path) == if t <= now + ttl then Some(item) else None
      ensures forall t, p :: p != item.path ==> Lookup(rows, t, p) == old(Lookup(rows, t, p))
    {
      hide Encode, Decode;
      DecodeEncode(item);
      rows := rows[item.path := Row(Encode(item), now + ttl)];
    }

    method PutNegative(path: Path, now: int)
      modifies this
      ensures rows == old(rows)[path := Row(NEGATIVE, now + negativeTtl)]
      ensures forall t :: Lookup(rows, t, path).None?
      ensures forall t, p :: p != path ==> Lookup(rows, t, p) == old(Lookup(rows, t, p))
    {
      hide Decode;
      rows := rows[path := Row(NEGATIVE, now + negativeTtl)];
    }

    /** Forgets the paths and their parents. */
    method Invalidate(paths: set<Path>)
      modifies this
      ensures rows == Without(old(rows), paths)
      ensures forall p :: p in rows <==> p in old(rows) && p !in paths && forall q :: q in paths ==> Parent(q) != p
      ensures forall p :: p in rows ==> rows[p] == old(rows)[p]
    {
      var rest := paths + set p | p in paths :: Parent(p);
      ghost var all := rest;
      while rest != {}
        invariant rest <= all
        invariant rows == old(rows) - (all - rest)
        decreases rest
      {
        var path :| path in rest;
        rows := rows - {path};
        rest := rest - {path};
      }
    }
  }
}
