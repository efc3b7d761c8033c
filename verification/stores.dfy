/** The two JSON files the agent keeps under its data directory: the selected model
    (`ModelStore`) and the chat history (`MessageStore`). A file is what `JSON.parse`
    made of its text; writing a value and parsing it back gives the value again. */
module Stores {
  import opened Wrappers
  import opened Text
  import opened Json

  // ---------------------------------------------------------------------------
  // The selected model

  /** `ModelStore.get()`: the `model` field of the file when it is truthy, and the
      empty string for a missing file, text that does not parse, a parsed `null`
      (reading a field of it throws, and the error is swallowed) or a falsy field. */
  function GetModel(file: Stored<Json>): (r: Json)
    ensures Truthy(r) <==> file.Holds? && TruthyField(file.content, "model")
    ensures Truthy(r) ==> r == file.content.fields["model"]
    ensures !Truthy(r) ==> r == JStr("")
  {
    match file
    case Holds(data) =>
      (match Field(data, "model")
       case Some(m) => if Truthy(m) then m else JStr("")
       case None => JStr(""))
    case _ => JStr("")
  }

  /** `(model || "").trim()`: the value `set(model)` stores and returns. A truthy
      argument that is not a string has no `trim` and makes the call throw. */
  function SetValue(model: Json): (r: Option<string>)
    ensures r.None? <==> Truthy(model) && !model.JStr?
    ensures model.JStr? ==> r == Some(Trim(model.s))
    ensures r.Some? ==> IsTrimmed(r.value)
  {
    if !Truthy(model) then Some(Trim(""))
    else if model.JStr? then Some(Trim(model.s))
    else None
  }

  /** The content `set` writes: `{ model: value }`. */
  function ModelFile(value: string): Json {
    JObj(map["model" := JStr(value)])
  }

  /** Reading back after `set` gives what `set` returned: a blank choice reads back
      as the empty string, anything else as the trimmed text. */
  lemma SetThenGet(model: Json)
    requires SetValue(model).Some?
    ensures GetModel(Holds(ModelFile(SetValue(model).value))) == JStr(SetValue(model).value)
  {
    ReadBack(SetValue(model).value);
  }

  lemma ReadBack(v: string)
    ensures GetModel(Holds(ModelFile(v))) == JStr(v)
  {
    assert Field(ModelFile(v), "model") == Some(JStr(v));
  }

  /** Setting a model already stored changes nothing: the stored value is trimmed. */
  lemma SetStoredAgain(model: Json)
    requires SetValue(model).Some?
    ensures SetValue(GetModel(Holds(ModelFile(SetValue(model).value)))) == SetValue(model)
  {
    var v := SetValue(model).value;
    ReadBack(v);
    TrimOfTrimmed(v);
  }

  // ---------------------------------------------------------------------------
  // The chat history

  /** The record `add(role, body)` creates; the id (`crypto.randomUUID()`) and the
      creation time (`new Date().toISOString()`) are parameters. */
  function MessageRecord(id: string, role: string, body: string, createdAt: string): (m: Json)
    ensures FieldIs(m, "role", role) && FieldIs(m, "body", body)
    ensures FieldIs(m, "id", id) && FieldIs(m, "created_at", createdAt)
  {
    JObj(map["id" := JStr(id), "role" := JStr(role), "body" := JStr(body), "created_at" := JStr(createdAt)])
  }

  /** `_load()`: whatever the file parses to, or an empty list when it is missing or
      does not parse. */
  function Load(file: Stored<Json>): (messages: Json)
    ensures file.Holds? ==> messages == file.content
    ensures !file.Holds? ==> messages == JArr([])
  {
    match file
    case Holds(v) => v
    case _ => JArr([])
  }

  /** The history in memory and the file it was last saved to. */
  datatype History = History(messages: Json, file: Stored<Json>)

  /** The constructor: load the file, write nothing. */
  function Open(file: Stored<Json>): (h: History)
    ensures h.messages == Load(file) && h.file == file
  {
    History(Load(file), file)
  }

  /** `add(role, body)`: pushes the record, saves the whole list and returns the
      record. A file that parsed to something other than an array has no `push`, so
      the call throws and nothing is written. */
  function Add(h: History, id: string, role: string, body: string, createdAt: string): (r: Option<(History, Json)>)
    ensures r.None? <==> !h.messages.JArr?
    ensures r.Some? ==> (r.value.1 == MessageRecord(id, role, body, createdAt)
      && r.value.0.messages == JArr(h.messages.items + [r.value.1])
      && r.value.0.file == Holds(r.value.0.messages))
  {
    match h.messages
    case JArr(items) =>
      var m := MessageRecord(id, role, body, createdAt);
      var all := JArr(items + [m]);
      Some((History(all, Holds(all)), m))
    case _ => None
  }

  /** `clear()`: an empty list, saved. */
  function Clear(h: History): (r: History)
    ensures r.messages == JArr([]) && r.file == Holds(JArr([]))
  {
    History(JArr([]), Holds(JArr([])))
  }

  /** What a restart sees: the history reloaded from the saved file is the history
      in memory, after any `add` or `clear`. */
  lemma AddSurvivesRestart(h: History, id: string, role: string, body: string, createdAt: string)
    requires h.messages.JArr?
    ensures var r := Add(h, id, role, body, createdAt).value.0;
      Open(r.file).messages == r.messages
      && |r.messages.items| == |h.messages.items| + 1
      && r.messages.items[..|h.messages.items|] == h.messages.items
      && r.messages.items[|h.messages.items|] == MessageRecord(id, role, body, createdAt)
  {
    var r := Add(h, id, role, body, createdAt).value.0;
    assert r.messages.items == h.messages.items + [MessageRecord(id, role, body, createdAt)];
  }

  lemma ClearSurvivesRestart(h: History)
    ensures Open(Clear(h).file).messages == JArr([])
    ensures Add(Clear(h), "", "", "", "").Some?
  {
  }

  /** The arguments of one `add` call, with its id and creation time. */
  datatype Draft = Draft(id: string, role: string, body: string, createdAt: string)

  function RecordOf(d: Draft): Json {
    MessageRecord(d.id, d.role, d.body, d.createdAt)
  }

  /** Adding a series of messages to a history, in order. */
  function AddAll(h: History, batch: seq<Draft>): Option<History>
    decreases |batch|
  {
    if |batch| == 0 then Some(h)
    else
      match Add(h, batch[0].id, batch[0].role, batch[0].body, batch[0].createdAt)
      case None => None
      case Some(r) => AddAll(r.0, batch[1..])
  }

  /** Records built from a batch, in the same order. */
  function Records(batch: seq<Draft>): (rs: seq<Json>)
    ensures |rs| == |batch|
  {
    if |batch| == 0 then [] else [RecordOf(batch[0])] + Records(batch[1..])
  }

  /** The records of a batch after a list: the first record, then the rest. */
  lemma RecordsAfter(items: seq<Json>, batch: seq<Draft>)
    requires |batch| > 0
    ensures (items + [RecordOf(batch[0])]) + Records(batch[1..]) == items + Records(batch)
  {
    var x, rest := RecordOf(batch[0]), Records(batch[1..]);
    assert Records(batch) == [x] + rest;
    Associative(items, [x], rest);
  }

  lemma Associative<T>(a: seq<T>, b: seq<T>, c: seq<T>)
    ensures (a + b) + c == a + (b + c)
  {
  }

  /** One `add` at the front of a batch. */
  lemma AddAllCons(h: History, batch: seq<Draft>)
    requires h.messages.JArr? && |batch| > 0
    ensures var all := JArr(h.messages.items + [RecordOf(batch[0])]);
      AddAll(h, batch) == AddAll(History(all, Holds(all)), batch[1..])
  {
  }

  /** Adding to a list keeps what was there and appends the new records in order;
      the saved file matches the list in memory. */
  lemma {:induction false} AddAllAppends(h: History, batch: seq<Draft>)
    requires h.messages.JArr?
    ensures var r := AddAll(h, batch);
      && r.Some? && r.value.messages == JArr(h.messages.items + Records(batch))
      && (|batch| > 0 ==> r.value.file == Holds(r.value.messages))
    decreases |batch|
  {
    if |batch| == 0 {
      assert h.messages.items + Records(batch) == h.messages.items;
    } else {
      var head := RecordOf(batch[0]);
      var all := JArr(h.messages.items + [head]);
      var r := History(all, Holds(all));
      var rest := batch[1..];
      AddAllCons(h, batch);
      AddAllAppends(r, rest);
      if |rest| == 0 {
        assert AddAll(r, rest) == Some(r);
      }
      RecordsAfter(h.messages.items, batch);
    }
  }
}
