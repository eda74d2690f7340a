/** Which fields of an event type are encrypted, computed from nested type hints. */
module Registry {
  import opened Wrappers
  import opened Seqs
  import opened Json
  import opened Documents

  datatype Encrypted = Encrypted(mask: Json, subjectField: Option<string>)

  datatype Hint = Plain | Marked(config: Encrypted) | Nested(fields: seq<Field>)

  datatype Field = Field(name: string, hint: Hint)

  datatype EventType = EventType(fields: seq<Field>, dataSubject: Option<string>)

  datatype Target = Target(path: Path, config: Encrypted)

  function Under(name: string, targets: seq<Target>): (r: seq<Target>)
    ensures |r| == |targets|
    ensures forall i :: 0 <= i < |r| ==> r[i] == Target([name] + targets[i].path, targets[i].config)
  {
    seq(|targets|, i requires 0 <= i < |targets| => Target([name] + targets[i].path, targets[i].config))
  }

  function TargetsOf(f: Field): seq<Target> {
    match f.hint
    case Plain => []
    case Marked(config) => [Target([f.name], config)]
    case Nested(fields) => Under(f.name, EncryptedFields(fields))
  }

  function EncryptedFields(fields: seq<Field>): seq<Target> {
    if fields == [] then [] else TargetsOf(fields[0]) + EncryptedFields(fields[1..])
  }

  // The type has a field marked with this configuration there: each name of the path is that
  // of a field, all but the last of nested types, the last a marked one.
  ghost predicate LeadsTo(fields: seq<Field>, path: Path, config: Encrypted)
    decreases |path|, 0
  {
    path != [] && exists f :: f in fields && f.name == path[0] && HintLeads(f.hint, path[1..], config)
  }

  ghost predicate HintLeads(h: Hint, rest: Path, config: Encrypted)
    decreases |rest|, 1
  {
    match h
    case Plain => false
    case Marked(c) => rest == [] && c == config
    case Nested(inner) => LeadsTo(inner, rest, config)
  }

  // The fields computed are exactly the marked ones, however deep.
  lemma {:induction false} EncryptedIffMarked(fields: seq<Field>, path: Path, config: Encrypted)
    ensures Target(path, config) in EncryptedFields(fields) <==> LeadsTo(fields, path, config)
  {
    if fields != [] {
      FieldEncryptedIff(fields[0], path, config);
      EncryptedIffMarked(fields[1..], path, config);
      assert forall f :: f in fields <==> f == fields[0] || f in fields[1..];
    }
  }

  lemma {:induction false} FieldEncryptedIff(f: Field, path: Path, config: Encrypted)
    ensures Target(path, config) in TargetsOf(f) <==>
            path != [] && f.name == path[0] && HintLeads(f.hint, path[1..], config)
  {
    match f.hint
    case Plain =>
    case Marked(c) =>
      assert path != [] && path[1..] == [] ==> path == [path[0]];
    case Nested(inner) =>
      UnderMember(f.name, EncryptedFields(inner), path, config);
      if path != [] {
        EncryptedIffMarked(inner, path[1..], config);
      }
  }

  lemma {:induction false} UnderMember(name: string, targets: seq<Target>, path: Path, config: Encrypted)
    ensures Target(path, config) in Under(name, targets) <==>
            path != [] && path[0] == name && Target(path[1..], config) in targets
  {
    var under := Under(name, targets);
    if Target(path, config) in under {
      var i :| 0 <= i < |under| && under[i] == Target(path, config);
      assert targets[i] in targets && ([name] + targets[i].path)[1..] == targets[i].path;
    }
    if path != [] && path[0] == name && Target(path[1..], config) in targets {
      var i :| 0 <= i < |targets| && targets[i] == Target(path[1..], config);
      assert [name] + path[1..] == path;
      assert under[i] in under;
    }
  }

  // Field names are identifiers: no dots, and no two alike on one level.
  predicate ProperHint(h: Hint) {
    h.Nested? ==> Proper(h.fields)
  }

  predicate Proper(fields: seq<Field>) {
    && (forall i :: 0 <= i < |fields| ==> '.' !in fields[i].name)
    && (forall i, j :: 0 <= i < j < |fields| ==> fields[i].name != fields[j].name)
    && (forall f :: f in fields ==> ProperHint(f.hint))
  }

  ghost predicate Separate(targets: seq<Target>, i: int, j: int)
    requires 0 <= i < j < |targets|
  {
    Apart(targets[i].path, targets[j].path)
  }

  ghost predicate Antichain(targets: seq<Target>) {
    forall i, j :: 0 <= i < j < |targets| ==> Separate(targets, i, j)
  }

  lemma {:induction false} PathsStartWithFields(fields: seq<Field>)
    requires Proper(fields)
    ensures forall t :: t in EncryptedFields(fields) ==>
              DotFree(t.path) && exists f :: f in fields && t.path[0] == f.name
  {
    if fields != [] {
      FieldPaths(fields[0]);
      assert forall f :: f in fields[1..] ==> f in fields;
      PathsStartWithFields(fields[1..]);
      forall t | t in EncryptedFields(fields)
        ensures DotFree(t.path) && exists f :: f in fields && t.path[0] == f.name
      {
        if t in TargetsOf(fields[0]) {
          assert fields[0] in fields;
        } else {
          var f :| f in fields[1..] && t.path[0] == f.name;
          assert f in fields;
        }
      }
    }
  }

  lemma {:induction false} FieldPaths(f: Field)
    requires '.' !in f.name && ProperHint(f.hint)
    ensures forall t :: t in TargetsOf(f) ==> DotFree(t.path) && t.path[0] == f.name
  {
    if f.hint.Nested? {
      PathsStartWithFields(f.hint.fields);
      var inner := EncryptedFields(f.hint.fields);
      forall t | t in TargetsOf(f)
        ensures DotFree(t.path) && t.path[0] == f.name
      {
        var i :| 0 <= i < |inner| && t == Under(f.name, inner)[i];
        assert inner[i] in inner;
        assert forall k :: 0 < k < |t.path| ==> t.path[k] == inner[i].path[k - 1];
      }
    }
  }

  // No computed path is a prefix of another, for every finitely nested type.
  lemma {:induction false} EncryptedPathsAreAntichain(fields: seq<Field>)
    requires Proper(fields)
    ensures Antichain(EncryptedFields(fields))
  {
    if fields != [] {
      var f, later := fields[0], fields[1..];
      var a, b := TargetsOf(f), EncryptedFields(later);
      assert forall g :: g in later ==> g in fields;
      FieldIsAntichain(f);
      FieldPaths(f);
      EncryptedPathsAreAntichain(later);
      PathsStartWithFields(later);
      forall i, j | 0 <= i < j < |a + b|
        ensures Separate(a + b, i, j)
      {
        if j < |a| {
          assert Separate(a, i, j);
        } else if |a| <= i {
          assert Separate(b, i - |a|, j - |a|);
        } else {
          assert a[i] in a && b[j - |a|] in b;
          var g :| g in later && b[j - |a|].path[0] == g.name;
          var k :| 0 <= k < |later| && later[k] == g;
          assert fields[k + 1] == g;
        }
      }
    }
  }

  lemma {:induction false} FieldIsAntichain(f: Field)
    requires ProperHint(f.hint)
    ensures Antichain(TargetsOf(f))
  {
    if f.hint.Nested? {
      var inner := EncryptedFields(f.hint.fields);
      EncryptedPathsAreAntichain(f.hint.fields);
      forall i, j | 0 <= i < j < |inner|
        ensures Separate(Under(f.name, inner), i, j)
      {
        assert Separate(inner, i, j);
        assert ([f.name] + inner[i].path)[1..] == inner[i].path && ([f.name] + inner[j].path)[1..] == inner[j].path;
      }
    }
  }

  // The configured subject field, or the type's own data subject.
  function SubjectField(of: EventType, t: Target): Option<string> {
    if t.config.subjectField.Some? && t.config.subjectField.value != "" then t.config.subjectField else of.dataSubject
  }
}

/** Encrypting and decrypting the marked fields of an event, and shredding by key deletion. */
module Encryption {
  import opened Wrappers
  import opened Seqs
  import opened Json
  import opened Documents
  import opened Registry

  type Key = nat

  // The cipher and the text form of JSON, with the laws they are taken to obey.
  datatype Cipher = Cipher(
    encrypt: (string, Key) -> string,
    decrypt: (string, Key) -> string,
    dumps: Json -> string,
    loads: string -> Option<Json>)

  ghost predicate Lawful(c: Cipher) {
    && (forall s: string, k: Key :: c.decrypt(c.encrypt(s, k), k) == s)
    && (forall v: Json :: c.loads(c.dumps(v)) == Some(v))
  }

  // An attribute of an event, or what stands for one in a document: a text, or something
  // else of which only the truth value matters.
  datatype Subject = Text(text: string) | Other(truthy: bool)

  // An event by its attributes and its JSON form.
  datatype Event = Event(attributes: map<string, Subject>, dump: Doc)

  datatype Error = NoSubjectIdFound | KeyNotFound(subject: Subject) | FieldMissing | NotCiphertext

  type Keys = map<string, Key>

  // Keys are stored under texts; nothing else finds one.
  function KeyOf(keys: Keys, subject: Subject): Option<Key> {
    if subject.Text? && subject.text in keys then Some(keys[subject.text]) else None
  }

  predicate Truthy(subject: Subject) {
    if subject.Text? then subject.text != "" else subject.truthy
  }

  predicate TruthyJson(v: Json) {
    match v
    case Null => false
    case Bool(b) => b
    case Num(n) => n != 0
    case Str(s) => s != ""
    case Arr(items) => items != []
    case Obj(fields) => fields != map[]
  }

  function SubjectIn(v: Json): Subject {
    if v.Str? then Text(v.text) else Other(TruthyJson(v))
  }

  predicate Given(field: Option<string>) {
    field.Some? && field.value != ""
  }

  // A text attribute has itself as its JSON form. Other attributes may be dumped as texts.
  predicate DumpedAsIs(event: Event, name: string) {
    && '.' !in name && name in event.attributes
    && (event.attributes[name].Text? ==> name in event.dump && event.dump[name] == Str(event.attributes[name].text))
  }

  // The subject field's attribute unless it is falsy, then the stream's name.
  function EncryptSubject(event: Event, field: Option<string>, streamName: Option<string>): (r: Result<Subject, Error>)
    ensures Given(field) && field.value !in event.attributes ==> r == Failure(FieldMissing)
    ensures r.Failure? && (Given(field) ==> field.value in event.attributes) ==> r.error == NoSubjectIdFound
  {
    if Given(field) && field.value !in event.attributes then Failure(FieldMissing)
    else if Given(field) && Truthy(event.attributes[field.value]) then Success(event.attributes[field.value])
    else if streamName.Some? then Success(Text(streamName.value))
    else Failure(NoSubjectIdFound)
  }

  // What the document holds at the subject field, even if falsy; the stream's name only
  // without such a field.
  function DecryptSubject(data: Doc, field: Option<string>, streamName: Option<string>): Option<Subject> {
    if Given(field) then
      var value := GetDotted(data, field.value);
      if value.Some? then Some(SubjectIn(value.value)) else None
    else Some(Text(if streamName.Some? then streamName.value else ""))
  }

  function Serialized(c: Cipher, value: Json): string {
    if value.Str? then value.text else c.dumps(value)
  }

  function Deserialized(c: Cipher, text: string): Json {
    var parsed := c.loads(text);
    if parsed.Some? then parsed.value else Str(text)
  }

  function Ciphertext(c: Cipher, value: Json, key: Key): Json {
    Str(c.encrypt(Serialized(c, value), key))
  }

  function Revealed(c: Cipher, value: Json, key: Option<Key>, mask: Json): Result<Json, Error> {
    if key.None? then Success(mask)
    else if !value.Str? then Failure(NotCiphertext)
    else Success(Deserialized(c, c.decrypt(value.text, key.value)))
  }

  function EncryptAll(c: Cipher, of: EventType, keys: Keys, streamName: Option<string>,
                      event: Event, data: Doc, targets: seq<Target>): Result<Doc, Error>
    decreases |targets|
  {
    if targets == [] then Success(data)
    else
      var t := targets[0];
      var subject := EncryptSubject(event, SubjectField(of, t), streamName);
      if subject.Failure? then Failure(subject.error)
      else
        var value := GetPath(data, t.path);
        if value.None? then Failure(FieldMissing)
        else
          var key := KeyOf(keys, subject.value);
          if key.None? then Failure(KeyNotFound(subject.value))
          else
            var next := SetPath(data, t.path, Ciphertext(c, value.value, key.value));
            EncryptAll(c, of, keys, streamName, event, next, targets[1..])
  }

  function DecryptAll(c: Cipher, of: EventType, keys: Keys, streamName: Option<string>,
                      data: Doc, targets: seq<Target>): Result<Doc, Error>
    decreases |targets|
  {
    if targets == [] then Success(data)
    else
      var t := targets[0];
      var subject := DecryptSubject(data, SubjectField(of, t), streamName);
      var value := GetPath(data, t.path);
      if subject.None? || value.None? then Failure(FieldMissing)
      else
        var revealed := Revealed(c, value.value, KeyOf(keys, subject.value), t.config.mask);
        if revealed.Failure? then Failure(revealed.error)
        else DecryptAll(c, of, keys, streamName, SetPath(data, t.path, revealed.value), targets[1..])
  }

  class KeyTable {
    var keys: map<(string, string), Key>

    constructor ()
      ensures keys == map[]
    {
      keys := map[];
    }
  }

  function Scoped(keys: map<(string, string), Key>, tenant: string): Keys {
    map k | k in keys && k.0 == tenant :: k.1 := keys[k]
  }

  class InMemoryKeyStorage {
    const table: KeyTable
    const tenantId: string

    constructor (table: KeyTable, tenantId: string)
      ensures this.table == table && this.tenantId == tenantId
    {
      this.table, this.tenantId := table, tenantId;
    }

    ghost function Visible(): Keys
      reads table
    {
      Scoped(table.keys, tenantId)
    }

    method Get(subject: Subject) returns (key: Option<Key>)
      ensures key == KeyOf(Visible(), subject)
    {
      if subject.Text? && (tenantId, subject.text) in table.keys {
        key := Some(table.keys[(tenantId, subject.text)]);
      } else {
        key := None;
      }
      ScopedLookup(table.keys, tenantId);
    }

    method Store(subject: string, key: Key)
      modifies table
      ensures Visible() == old(Visible())[subject := key]
      ensures forall t :: t != tenantId ==> Scoped(table.keys, t) == Scoped(old(table.keys), t)
    {
      ghost var was := table.keys;
      table.keys := table.keys[(tenantId, subject) := key];
      forall t
        ensures Scoped(table.keys, t) == if t == tenantId then Scoped(was, t)[subject := key] else Scoped(was, t)
      {
        ScopedLookup(was, t);
        ScopedLookup(table.keys, t);
      }
    }

    method Delete(subject: string)
      modifies table
      ensures Visible() == old(Visible()) - {subject}
      ensures forall t :: t != tenantId ==> Scoped(table.keys, t) == Scoped(old(table.keys), t)
    {
      ghost var was := table.keys;
      table.keys := table.keys - {(tenantId, subject)};
      forall t
        ensures Scoped(table.keys, t) == if t == tenantId then Scoped(was, t) - {subject} else Scoped(was, t)
      {
        ScopedLookup(was, t);
        ScopedLookup(table.keys, t);
      }
    }
  }

  lemma {:induction false} ScopedLookup(keys: map<(string, string), Key>, tenant: string)
    ensures forall s :: s in Scoped(keys, tenant) <==> (tenant, s) in keys
    ensures forall s :: s in Scoped(keys, tenant) ==> Scoped(keys, tenant)[s] == keys[(tenant, s)]
  {
    forall s
      ensures s in Scoped(keys, tenant) <==> (tenant, s) in keys
    {
      if (tenant, s) in keys {
        assert (tenant, s).1 in Scoped(keys, tenant);
      }
    }
  }

  class Encryption {
    const cipher: Cipher
    const keyStorage: InMemoryKeyStorage

    constructor (cipher: Cipher, keyStorage: InMemoryKeyStorage)
      ensures this.cipher == cipher && this.keyStorage == keyStorage
    {
      this.cipher, this.keyStorage := cipher, keyStorage;
    }

    method Encrypt(of: EventType, event: Event, streamName: Option<string>) returns (r: Result<Doc, Error>)
      requires Proper(of.fields)
      ensures r
           == EncryptAll(cipher, of, keyStorage.Visible(), streamName, event, event.dump, EncryptedFields(of.fields))
    {
      hide GetDotted, SetDotted, GetPath, SetPath, Join, HasParent, KeyOf, Scoped, SubjectField, EncryptSubject,
             Ciphertext;
      var data := new NestedDict(event.dump);
      var targets := EncryptedFields(of.fields);
      PathsStartWithFields(of.fields);
      ghost var keys := keyStorage.Visible();
      for i := 0 to |targets|
        invariant keys == keyStorage.Visible()
        invariant EncryptAll(cipher, of, keys, streamName, event, data.data, targets[i..])
               == EncryptAll(cipher, of, keys, streamName, event, event.dump, targets)
      {
        var t := targets[i];
        assert t in targets && targets[i..][1..] == targets[i + 1..];
        var subject := EncryptSubject(event, SubjectField(of, t), streamName);
        if subject.Failure? {
          return Failure(subject.error);
        }
        var value := data.GetItem(Join(t.path));
        GetDottedIsGetPath(data.data, t.path);
        if value.None? {
          return Failure(FieldMissing);
        }
        var key := keyStorage.Get(subject.value);
        if key.None? {
          return Failure(KeyNotFound(subject.value));
        }
        SetDottedIsSetPath(data.data, t.path, Ciphertext(cipher, value.value, key.value));
        PresentHasParent(data.data, t.path);
        var written := data.SetItem(Join(t.path), Ciphertext(cipher, value.value, key.value));
        assert written;
      }
      return Success(data.data);
    }

    method Decrypt(of: EventType, raw: Doc, streamName: Option<string>) returns (r: Result<Doc, Error>)
      requires Proper(of.fields)
      ensures r == DecryptAll(cipher, of, keyStorage.Visible(), streamName, raw, EncryptedFields(of.fields))
    {
      hide GetDotted, SetDotted, GetPath, SetPath, Join, HasParent, KeyOf, Scoped, SubjectField, DecryptSubject,
             Revealed;
      var data := new NestedDict(raw);
      var targets := EncryptedFields(of.fields);
      PathsStartWithFields(of.fields);
      ghost var keys := keyStorage.Visible();
      for i := 0 to |targets|
        invariant keys == keyStorage.Visible()
        invariant DecryptAll(cipher, of, keys, streamName, data.data, targets[i..])
               == DecryptAll(cipher, of, keys, streamName, raw, targets)
      {
        var t := targets[i];
        assert t in targets && targets[i..][1..] == targets[i + 1..];
        var subject := DecryptSubject(data.data, SubjectField(of, t), streamName);
        var value := data.GetItem(Join(t.path));
        GetDottedIsGetPath(data.data, t.path);
        if subject.None? || value.None? {
          return Failure(FieldMissing);
        }
        var key := keyStorage.Get(subject.value);
        var revealed := Revealed(cipher, value.value, key, t.config.mask);
        if revealed.Failure? {
          return Failure(revealed.error);
        }
        SetDottedIsSetPath(data.data, t.path, revealed.value);
        PresentHasParent(data.data, t.path);
        var written := data.SetItem(Join(t.path), revealed.value);
        assert written;
      }
      return Success(data.data);
    }

    method Shred(subject: string)
      modifies keyStorage.table
      ensures keyStorage.Visible() == old(keyStorage.Visible()) - {subject}
      ensures forall t :: t != keyStorage.tenantId ==>
                Scoped(keyStorage.table.keys, t) == Scoped(old(keyStorage.table.keys), t)
    {
      keyStorage.Delete(subject);
    }
  }
}
