/** The ledger file: what `json.loads` gives back, which of it is accepted, and what
    is written (src/xete_mcp/spendguard.py, `_read_ledger` and `_write_ledger`). */
module LedgerFile {
  import opened Wrappers
  import opened SpendLedger

  datatype Json =
    | JNull
    | JBool(b: bool)
    | JInt(i: int)
    | JFloat(f: real)
    | JString(s: string)
    | JArray(items: seq<Json>)
    | JObject(fields: map<string, Json>)

  datatype Stored = Missing | Unreadable | NotJson | Parsed(value: Json)

  /** Python's `str` on a decoded value; only strings have a fixed image. */
  type Coercion = Json -> string

  function TextOf(j: Json, str: Coercion): string {
    match j
    case JString(s) => s
    case _ => str(j)
  }

  function Field(m: map<string, Json>, key: string, absent: Json): Json {
    if key in m then m[key] else absent
  }

  predicate IsNumber(j: Json) {
    j.JInt? || j.JFloat?
  }

  function ToReal(j: Json): real
    requires IsNumber(j)
  {
    match j
    case JInt(i) => i as real
    case JFloat(f) => f
  }

  /** In Python 1, 1.0 and True are all equal to the version number 1. */
  predicate IsVersionOne(j: Json) {
    j == JInt(1) || j == JFloat(1.0) || j == JBool(true)
  }

  predicate GoodEntry(j: Json) {
    j.JObject?
    && IsNumber(Field(j.fields, "ts", JNull))
    && Field(j.fields, "lamports", JNull).JInt?
    && Field(j.fields, "lamports", JNull).i >= 0
  }

  function EntryOf(j: Json, str: Coercion): Entry
    requires GoodEntry(j)
  {
    Entry(ToReal(Field(j.fields, "ts", JNull)), Field(j.fields, "lamports", JNull).i,
          TextOf(Field(j.fields, "path", JString("")), str), TextOf(Field(j.fields, "detail", JString("")), str))
  }

  predicate GoodLedger(j: Json) {
    j.JObject?
    && IsVersionOne(Field(j.fields, "version", JNull))
    && Field(j.fields, "entries", JNull).JArray?
    && (forall e :: e in Field(j.fields, "entries", JNull).items ==> GoodEntry(e))
    && IsNumber(Field(j.fields, "last_ts", JFloat(0.0)))
  }

  function EntriesOf(items: seq<Json>, str: Coercion): seq<Entry>
    requires forall e :: e in items ==> GoodEntry(e)
  {
    seq(|items|, i requires 0 <= i < |items| => EntryOf(items[i], str))
  }

  /** The ledger a file stands for: an absent file is an empty ledger, and anything
      that is not exactly a version-1 ledger is refused rather than reset. */
  function Decode(file: Stored, str: Coercion): Result<Ledger, Refusal> {
    match file
    case Missing => Success(EMPTY)
    case Parsed(j) =>
      if GoodLedger(j) then
        Success(Ledger(ToReal(Field(j.fields, "last_ts", JFloat(0.0))),
                       EntriesOf(Field(j.fields, "entries", JNull).items, str)))
      else Failure(LedgerUnusable)
    case _ => Failure(LedgerUnusable)
  }

  function EncodeEntry(e: Entry): Json {
    JObject(map["ts" := JFloat(e.ts), "lamports" := JInt(e.lamports),
                "path" := JString(e.path), "detail" := JString(e.detail)])
  }

  function Encode(l: Ledger): Stored {
    Parsed(JObject(map["version" := JInt(1), "last_ts" := JFloat(l.lastTs),
                       "entries" := JArray(seq(|l.entries|, i requires 0 <= i < |l.entries| => EncodeEntry(l.entries[i])))]))
  }

  lemma EntryRoundTrip(e: Entry, str: Coercion)
    ensures GoodEntry(EncodeEntry(e)) && EntryOf(EncodeEntry(e), str) == e
  {
    var m := EncodeEntry(e).fields;
    assert m["ts"] == JFloat(e.ts) && m["lamports"] == JInt(e.lamports);
  }

  /** Reading back what was written gives the same ledger, entry for entry. */
  lemma LedgerRoundTrip(l: Ledger, str: Coercion)
    ensures Decode(Encode(l), str) == Success(l)
  {
    var j := Encode(l).value;
    assert j.fields["version"] == JInt(1) && j.fields["last_ts"] == JFloat(l.lastTs);
    var items := j.fields["entries"].items;
    forall e | e in items ensures GoodEntry(e) {
      var i :| 0 <= i < |items| && items[i] == e;
      EntryRoundTrip(l.entries[i], str);
    }
    forall i | 0 <= i < |items| ensures EntriesOf(items, str)[i] == l.entries[i] {
      EntryRoundTrip(l.entries[i], str);
    }
    assert Field(j.fields, "entries", JNull).items == items;
    assert EntriesOf(items, str) == l.entries;
  }

  /** What an entry must look like to be read, and what is read from it. */
  predicate ReadsAsEntry(j: Json, str: Coercion, e: Entry) {
    && j.JObject? && "ts" in j.fields && "lamports" in j.fields
    && (j.fields["ts"] == JFloat(e.ts) || (j.fields["ts"].JInt? && j.fields["ts"].i as real == e.ts))
    && j.fields["lamports"] == JInt(e.lamports)
    && e.path == (if "path" !in j.fields then "" else if j.fields["path"].JString? then j.fields["path"].s else str(j.fields["path"]))
    && e.detail == (if "detail" !in j.fields then ""
                    else if j.fields["detail"].JString? then j.fields["detail"].s else str(j.fields["detail"]))
  }

  /** What a document must look like to be read as the ledger `l`. */
  predicate ReadsAsLedger(j: Json, str: Coercion, l: Ledger) {
    && j.JObject? && "version" in j.fields && j.fields["version"] in {JInt(1), JFloat(1.0), JBool(true)}
    && "entries" in j.fields && j.fields["entries"].JArray?
    && |j.fields["entries"].items| == |l.entries|
    && (forall i :: 0 <= i < |l.entries| ==> ReadsAsEntry(j.fields["entries"].items[i], str, l.entries[i]))
    && (if "last_ts" !in j.fields then l.lastTs == 0.0
        else j.fields["last_ts"] == JFloat(l.lastTs) || (j.fields["last_ts"].JInt? && j.fields["last_ts"].i as real == l.lastTs))
  }

  lemma EntryIsRead(j: Json, str: Coercion, e: Entry)
    ensures GoodEntry(j) && EntryOf(j, str) == e <==> ReadsAsEntry(j, str, e)
  {
  }

  /** A file stands for a ledger if and only if there is no file and the ledger is empty, or the file holds a
      version-1 document that reads as that ledger, entry for entry. */
  lemma DecodeIsExact(file: Stored, str: Coercion, l: Ledger)
    ensures Decode(file, str) == Success(l) <==> (file.Missing? && l == EMPTY) || (file.Parsed? && ReadsAsLedger(file.value, str, l))
  {
    if file.Parsed? && file.value.JObject? && Field(file.value.fields, "entries", JNull).JArray? {
      ItemsAreRead(Field(file.value.fields, "entries", JNull).items, str, l.entries);
    }
    hide GoodEntry, EntryOf, ReadsAsEntry, EntriesOf;
  }

  lemma ItemsAreRead(items: seq<Json>, str: Coercion, es: seq<Entry>)
    ensures (forall j :: j in items ==> GoodEntry(j)) && EntriesOf(items, str) == es
       <==> |items| == |es| && forall i :: 0 <= i < |es| ==> ReadsAsEntry(items[i], str, es[i])
  {
    forall i | 0 <= i < |items| && i < |es|
      ensures GoodEntry(items[i]) && EntryOf(items[i], str) == es[i] <==> ReadsAsEntry(items[i], str, es[i])
    {
      EntryIsRead(items[i], str, es[i]);
    }
    hide GoodEntry, EntryOf, ReadsAsEntry;
    if |items| == |es| && forall i :: 0 <= i < |es| ==> ReadsAsEntry(items[i], str, es[i]) {
      forall j | j in items ensures GoodEntry(j) {
        var i :| 0 <= i < |items| && items[i] == j;
      }
      assert EntriesOf(items, str) == es;
    }
    if (forall j :: j in items ==> GoodEntry(j)) && EntriesOf(items, str) == es {
      forall i | 0 <= i < |es| ensures ReadsAsEntry(items[i], str, es[i]) {
        assert items[i] in items && EntriesOf(items, str)[i] == EntryOf(items[i], str);
      }
    }
  }

  method ReadLedger(file: Stored, str: Coercion) returns (r: Result<Ledger, Refusal>)
    ensures r == Decode(file, str)
  {
    if file.Missing? {
      return Success(EMPTY);
    }
    if !file.Parsed? || !file.value.JObject? {
      return Failure(LedgerUnusable);
    }
    var data := file.value.fields;
    if !IsVersionOne(Field(data, "version", JNull)) {
      return Failure(LedgerUnusable);
    }
    var entries := Field(data, "entries", JNull);
    if !entries.JArray? {
      return Failure(LedgerUnusable);
    }
    var clean: seq<Entry> := [];
    for k := 0 to |entries.items|
      invariant |clean| == k
      invariant forall j :: 0 <= j < k ==> GoodEntry(entries.items[j]) && clean[j] == EntryOf(entries.items[j], str)
    {
      var item := entries.items[k];
      assert item in entries.items;
      if !item.JObject? {
        return Failure(LedgerUnusable);
      }
      var ts, lam := Field(item.fields, "ts", JNull), Field(item.fields, "lamports", JNull);
      if !IsNumber(ts) {
        return Failure(LedgerUnusable);
      }
      if !lam.JInt? || lam.i < 0 {
        return Failure(LedgerUnusable);
      }
      clean := clean + [Entry(ToReal(ts), lam.i, TextOf(Field(item.fields, "path", JString("")), str),
                              TextOf(Field(item.fields, "detail", JString("")), str))];
    }
    var last := Field(data, "last_ts", JFloat(0.0));
    if !IsNumber(last) {
      return Failure(LedgerUnusable);
    }
    assert clean == EntriesOf(entries.items, str);
    r := Success(Ledger(ToReal(last), clean));
  }
}
