/** What becomes of an event that is encrypted, shredded in part and decrypted. */
module Shredding {
  import opened Wrappers
  import opened Seqs
  import opened Json
  import opened Documents
  import opened Registry
  import opened Encryption

  // One event encrypted with some keys and decrypted with those left.
  datatype Trip = Trip(
    cipher: Cipher,
    of: EventType,
    streamName: Option<string>,
    event: Event,
    keys: Keys,
    left: Keys)
  {
    function Targets(): seq<Target> {
      EncryptedFields(of.fields)
    }

    // The type has this field, marked with this configuration.
    ghost predicate IsMarked(t: Target) {
      LeadsTo(of.fields, t.path, t.config)
    }

    function Value(t: Target): Option<Json> {
      GetPath(event.dump, t.path)
    }

    // Whose key a field is encrypted with, and whose key decryption asks for.
    function Writer(t: Target): Result<Subject, Error> {
      EncryptSubject(event, SubjectField(of, t), streamName)
    }

    function Reader(t: Target): Option<Subject> {
      DecryptSubject(event.dump, SubjectField(of, t), streamName)
    }

    // The field is there, its subject is known, and so is the subject's key.
    predicate Encryptable(t: Target) {
      Value(t).Some? && Writer(t).Success? && KeyOf(keys, Writer(t).value).Some?
    }

    predicate Shredded(t: Target) {
      Writer(t).Success? && KeyOf(left, Writer(t).value).None?
    }

    // Reading back finds the subject the field was encrypted for.
    predicate SubjectKept(t: Target) {
      Writer(t).Success? && Reader(t) == Some(Writer(t).value)
    }

    function Hidden(t: Target): Json
      requires Encryptable(t)
    {
      Ciphertext(cipher, Value(t).value, KeyOf(keys, Writer(t).value).value)
    }

    // What decryption makes of the field: the mask without a key, else what that key reveals.
    function Outcome(t: Target): Json
      requires Encryptable(t) && Reader(t).Some?
    {
      var key := KeyOf(left, Reader(t).value);
      if key.None? then t.config.mask
      else Deserialized(cipher, cipher.decrypt(Hidden(t).text, key.value))
    }

    // What it should be: the mask for a shredded subject, else the value.
    function Expected(t: Target): Json
      requires Encryptable(t)
    {
      if Shredded(t) then t.config.mask else Value(t).value
    }

    // All keys are present, every subject field can be read back, and no subject field
    // lies inside an encrypted one.
    ghost predicate Ready() {
      && Lawful(cipher)
      && Proper(of.fields)
      && (forall k :: k in left ==> k in keys && left[k] == keys[k])
      && (forall t :: IsMarked(t) ==> Encryptable(t) && Reader(t).Some?)
      && (forall t, u :: IsMarked(t) && IsMarked(u) ==> InTheClear(of, t, u))
    }
  }

  lemma {:induction false} TargetsAreMarked(x: Trip)
    ensures forall t :: t in x.Targets() <==> x.IsMarked(t)
  {
    forall t
      ensures t in x.Targets() <==> x.IsMarked(t)
    {
      EncryptedIffMarked(x.of.fields, t.path, t.config);
    }
  }

  ghost predicate InTheClear(of: EventType, t: Target, u: Target) {
    var field := SubjectField(of, t);
    Given(field) ==> '.' !in field.value && Apart(u.path, [field.value])
  }

  lemma {:induction false} PlainNameIsPath(doc: Doc, name: string)
    requires '.' !in name
    ensures GetDotted(doc, name) == GetPath(doc, [name])
  {
    GetDottedIsGetPath(doc, [name]);
  }

  lemma {:induction false} SubjectUnmoved(data: Doc, other: Doc, field: Option<string>, streamName: Option<string>)
    requires Given(field) ==> '.' !in field.value && GetPath(data, [field.value]) == GetPath(other, [field.value])
    ensures DecryptSubject(data, field, streamName) == DecryptSubject(other, field, streamName)
  {
    if Given(field) {
      PlainNameIsPath(data, field.value);
      PlainNameIsPath(other, field.value);
    }
  }

  // Exactly when the two subject rules agree: encryption passes over a falsy subject field
  // in favour of the stream's name, decryption does not.
  lemma {:induction false} SubjectKeptIff(x: Trip, t: Target)
    requires x.Encryptable(t)
    requires Given(SubjectField(x.of, t)) ==> DumpedAsIs(x.event, SubjectField(x.of, t).value)
    ensures var field := SubjectField(x.of, t);
            x.SubjectKept(t) <==>
            (Given(field) && !Truthy(x.event.attributes[field.value]) ==> x.Reader(t) == Some(Text(x.streamName.value)))
  {
    if Given(SubjectField(x.of, t)) {
      PlainNameIsPath(x.event.dump, SubjectField(x.of, t).value);
    }
  }

  // A value comes back from its text form unless it is a text that reads as other JSON.
  predicate Survives(c: Cipher, value: Json) {
    value.Str? ==> c.loads(value.text) in {None, Some(value)}
  }

  lemma {:induction false} SurvivesIff(c: Cipher, value: Json)
    requires Lawful(c)
    ensures Deserialized(c, Serialized(c, value)) == value <==> Survives(c, value)
  {
  }

  /******* Fields as independent writes *******/

  lemma {:induction false} AntichainTail(targets: seq<Target>)
    requires targets != [] && Antichain(targets)
    ensures Antichain(targets[1..])
    ensures forall u :: u in targets[1..] ==> Apart(targets[0].path, u.path)
  {
    forall i, j | 0 <= i < j < |targets[1..]|
      ensures Separate(targets[1..], i, j)
    {
      assert Separate(targets, i + 1, j + 1);
    }
    forall u | u in targets[1..]
      ensures Apart(targets[0].path, u.path)
    {
      var i :| 0 <= i < |targets[1..]| && targets[1..][i] == u;
      assert Separate(targets, 0, i + 1);
    }
  }

  // A value for every field.
  function Writes(f: Target -> Json, targets: seq<Target>): (writes: seq<Write>)
    ensures |writes| == |targets|
    ensures forall i :: 0 <= i < |targets| ==> writes[i] == Write(targets[i].path, f(targets[i]))
  {
    Map((t: Target) => Write(t.path, f(t)), targets)
  }

  lemma {:induction false} WritesTail(f: Target -> Json, targets: seq<Target>)
    requires targets != []
    ensures Writes(f, targets)[1..] == Writes(f, targets[1..])
  {
  }

  lemma {:induction false} WritesIndependent(f: Target -> Json, targets: seq<Target>, doc: Doc)
    requires Antichain(targets) && forall t :: t in targets ==> GetPath(doc, t.path).Some?
    ensures Independent(Writes(f, targets)) && Present(doc, Writes(f, targets))
  {
    var writes := Writes(f, targets);
    forall i, j | 0 <= i < j < |writes|
      ensures PathsApart(writes, i, j)
    {
      assert Separate(targets, i, j);
    }
    forall w | w in writes
      ensures GetPath(doc, w.path).Some?
    {
      var i :| 0 <= i < |writes| && writes[i] == w;
      assert targets[i] in targets;
    }
  }

  // After all writes every field holds its own.
  lemma {:induction false} FieldHolds(f: Target -> Json, targets: seq<Target>, doc: Doc, t: Target)
    requires Antichain(targets) && t in targets && forall u :: u in targets ==> GetPath(doc, u.path).Some?
    ensures GetPath(SetAll(doc, Writes(f, targets)), t.path) == Some(f(t))
  {
    var i :| 0 <= i < |targets| && targets[i] == t;
    WritesIndependent(f, targets, doc);
    SetAllThere(doc, Writes(f, targets), i);
  }

  // Two rounds of writes are equal if and only if they are on every field.
  lemma {:induction false} SameResultIff(f: Target -> Json, g: Target -> Json, targets: seq<Target>, doc: Doc)
    requires Antichain(targets) && forall t :: t in targets ==> GetPath(doc, t.path).Some?
    ensures SetAll(doc, Writes(f, targets)) == SetAll(doc, Writes(g, targets)) <==>
              forall t :: t in targets ==> f(t) == g(t)
  {
    if forall t :: t in targets ==> f(t) == g(t) {
      forall i | 0 <= i < |targets|
        ensures Writes(f, targets)[i] == Writes(g, targets)[i]
      {
        assert targets[i] in targets;
      }
      assert Writes(f, targets) == Writes(g, targets);
    } else {
      var t :| t in targets && f(t) != g(t);
      FieldHolds(f, targets, doc, t);
      FieldHolds(g, targets, doc, t);
    }
  }

  function HiddenIn(x: Trip): Target -> Json {
    (t: Target) => if x.Encryptable(t) then x.Hidden(t) else Null
  }

  function OutcomeIn(x: Trip): Target -> Json {
    (t: Target) => if x.Encryptable(t) && x.Reader(t).Some? then x.Outcome(t) else Null
  }

  function ExpectedIn(x: Trip): Target -> Json {
    (t: Target) => if x.Encryptable(t) then x.Expected(t) else Null
  }

  // The original with the mask at the shredded fields.
  function Masked(x: Trip): Doc {
    SetAll(x.event.dump, Writes(ExpectedIn(x), x.Targets()))
  }

  // Encrypting is writing every ciphertext to its place.
  lemma {:induction false} EncryptIsSetAll(x: Trip, data: Doc, targets: seq<Target>)
    requires Antichain(targets)
    requires forall t :: t in targets ==> x.Encryptable(t) && GetPath(data, t.path) == x.Value(t)
    ensures EncryptAll(x.cipher, x.of, x.keys, x.streamName, x.event, data, targets)
         == Success(SetAll(data, Writes(HiddenIn(x), targets)))
    decreases |targets|
  {
    if targets != [] {
      var t := targets[0];
      var next := SetPath(data, t.path, x.Hidden(t));
      AntichainTail(targets);
      WritesTail(HiddenIn(x), targets);
      forall u | u in targets[1..]
        ensures x.Encryptable(u) && GetPath(next, u.path) == x.Value(u)
      {
        GetElsewhere(data, t.path, x.Hidden(t), u.path);
      }
      EncryptIsSetAll(x, next, targets[1..]);
    }
  }

  // The field can be decrypted as it could before any other was.
  ghost predicate Readable(x: Trip, data: Doc, t: Target) {
    && x.Encryptable(t) && x.Reader(t).Some?
    && GetPath(data, t.path) == Some(x.Hidden(t))
    && DecryptSubject(data, SubjectField(x.of, t), x.streamName) == x.Reader(t)
  }

  lemma {:induction false} StaysReadable(x: Trip, data: Doc, path: Path, value: Json, t: Target)
    requires Readable(x, data, t) && Apart(path, t.path)
    requires Given(SubjectField(x.of, t)) ==>
               '.' !in SubjectField(x.of, t).value && Apart(path, [SubjectField(x.of, t).value])
    ensures Readable(x, SetPath(data, path, value), t)
  {
    GetElsewhere(data, path, value, t.path);
    if Given(SubjectField(x.of, t)) {
      GetElsewhere(data, path, value, [SubjectField(x.of, t).value]);
    }
    SubjectUnmoved(SetPath(data, path, value), data, SubjectField(x.of, t), x.streamName);
  }

  // Decrypting is writing every outcome to its place.
  lemma {:induction false} DecryptIsSetAll(x: Trip, data: Doc, targets: seq<Target>)
    requires Antichain(targets) && forall t :: t in targets ==> Readable(x, data, t)
    requires forall t, u :: t in targets && u in targets ==> InTheClear(x.of, t, u)
    ensures DecryptAll(x.cipher, x.of, x.left, x.streamName, data, targets)
         == Success(SetAll(data, Writes(OutcomeIn(x), targets)))
    decreases |targets|
  {
    if targets != [] {
      var t := targets[0];
      assert t in targets && Readable(x, data, t);
      var next := SetPath(data, t.path, x.Outcome(t));
      AntichainTail(targets);
      WritesTail(OutcomeIn(x), targets);
      forall u | u in targets[1..]
        ensures Readable(x, next, u)
      {
        assert InTheClear(x.of, u, t);
        StaysReadable(x, data, t.path, x.Outcome(t), u);
      }
      DecryptIsSetAll(x, next, targets[1..]);
    }
  }

  // After encryption every field holds its ciphertext and every subject is still readable.
  lemma {:induction false} EncryptedIsReadable(x: Trip, t: Target)
    requires x.Ready() && Antichain(x.Targets()) && t in x.Targets()
    ensures Readable(x, SetAll(x.event.dump, Writes(HiddenIn(x), x.Targets())), t)
  {
    var targets, hidden, field := x.Targets(), Writes(HiddenIn(x), x.Targets()), SubjectField(x.of, t);
    TargetsAreMarked(x);
    FieldHolds(HiddenIn(x), targets, x.event.dump, t);
    if Given(field) {
      forall w | w in hidden
        ensures Apart(w.path, [field.value])
      {
        var j :| 0 <= j < |hidden| && hidden[j] == w;
        assert targets[j] in targets && InTheClear(x.of, t, targets[j]);
      }
      assert InTheClear(x.of, t, t);
      SetAllElsewhere(x.event.dump, hidden, [field.value]);
    }
    SubjectUnmoved(SetAll(x.event.dump, hidden), x.event.dump, field, x.streamName);
  }

  // Encrypting with all keys and decrypting with those left is writing every outcome.
  lemma {:induction false} EncryptShredDecrypt(x: Trip)
    requires x.Ready()
    ensures var encrypted := EncryptAll(x.cipher, x.of, x.keys, x.streamName, x.event, x.event.dump, x.Targets());
            && encrypted.Success?
            && DecryptAll(x.cipher, x.of, x.left, x.streamName, encrypted.value, x.Targets())
               == Success(SetAll(x.event.dump, Writes(OutcomeIn(x), x.Targets())))
  {
    var targets, hidden, outcome := x.Targets(), Writes(HiddenIn(x), x.Targets()), Writes(OutcomeIn(x), x.Targets());
    TargetsAreMarked(x);
    EncryptedPathsAreAntichain(x.of.fields);
    EncryptIsSetAll(x, x.event.dump, targets);
    forall t | t in targets
      ensures Readable(x, SetAll(x.event.dump, hidden), t)
    {
      EncryptedIsReadable(x, t);
    }
    DecryptIsSetAll(x, SetAll(x.event.dump, hidden), targets);
    WritesIndependent(HiddenIn(x), targets, x.event.dump);
    assert SamePaths(hidden, outcome);
    SetAllTwice(x.event.dump, hidden, outcome);
  }

  // The subject decryption asks for is the one the field was encrypted for, or has no key.
  predicate NoForeignKey(x: Trip, t: Target) {
    x.SubjectKept(t) || (x.Reader(t).Some? && KeyOf(x.left, x.Reader(t).value).None?)
  }

  // When a field is read back as it should be: its key is gone; or its subject is found
  // again and its value survives its text form; or its subject is lost and the mask happens
  // to be the value.
  predicate Recoverable(x: Trip, t: Target) {
    || x.Shredded(t)
    || (x.Value(t).Some?
        && if x.SubjectKept(t) then Survives(x.cipher, x.Value(t).value) else x.Value(t).value == t.config.mask)
  }

  lemma {:induction false} OutcomeIsExpectedIff(x: Trip, t: Target)
    requires x.Ready() && x.IsMarked(t) && NoForeignKey(x, t)
    ensures x.Outcome(t) == x.Expected(t) <==> Recoverable(x, t)
  {
    SurvivesIff(x.cipher, x.Value(t).value);
  }

  // The law: decryption gives the original with the mask at exactly the shredded fields if
  // and only if every other marked field has kept its subject and survives its text form.
  lemma {:induction false} RoundTripIff(x: Trip)
    requires x.Ready() && forall t :: x.IsMarked(t) ==> NoForeignKey(x, t)
    ensures var encrypted := EncryptAll(x.cipher, x.of, x.keys, x.streamName, x.event, x.event.dump, x.Targets());
            && encrypted.Success?
            && (DecryptAll(x.cipher, x.of, x.left, x.streamName, encrypted.value, x.Targets()) == Success(Masked(x))
                <==> forall t :: x.IsMarked(t) ==> Recoverable(x, t))
  {
    var targets := x.Targets();
    TargetsAreMarked(x);
    EncryptedPathsAreAntichain(x.of.fields);
    EncryptShredDecrypt(x);
    SameResultIff(OutcomeIn(x), ExpectedIn(x), targets, x.event.dump);
    forall t | t in targets
      ensures OutcomeIn(x)(t) == ExpectedIn(x)(t) <==> Recoverable(x, t)
    {
      OutcomeIsExpectedIff(x, t);
    }
  }

  // A field whose subject is lost comes back as the mask, though its key was not shredded.
  lemma {:induction false} LostSubjectIsMasked(x: Trip, t: Target)
    requires x.Ready() && x.IsMarked(t) && NoForeignKey(x, t) && !x.SubjectKept(t)
    ensures var encrypted := EncryptAll(x.cipher, x.of, x.keys, x.streamName, x.event, x.event.dump, x.Targets());
            && encrypted.Success?
            && var decrypted := DecryptAll(x.cipher, x.of, x.left, x.streamName, encrypted.value, x.Targets());
            && decrypted.Success?
            && GetPath(decrypted.value, t.path) == Some(t.config.mask)
  {
    TargetsAreMarked(x);
    EncryptedPathsAreAntichain(x.of.fields);
    EncryptShredDecrypt(x);
    FieldHolds(OutcomeIn(x), x.Targets(), x.event.dump, t);
  }

  // In the masked original the mask stands at exactly the shredded fields.
  lemma {:induction false} MaskedField(x: Trip, t: Target)
    requires x.Ready() && x.IsMarked(t)
    ensures GetPath(Masked(x), t.path) == if x.Shredded(t) then Some(t.config.mask) else x.Value(t)
  {
    TargetsAreMarked(x);
    EncryptedPathsAreAntichain(x.of.fields);
    FieldHolds(ExpectedIn(x), x.Targets(), x.event.dump, t);
  }

  lemma {:induction false} WrittenElsewhere(x: Trip, f: Target -> Json, q: Path)
    requires forall t :: x.IsMarked(t) ==> Apart(t.path, q)
    ensures GetPath(SetAll(x.event.dump, Writes(f, x.Targets())), q) == GetPath(x.event.dump, q)
  {
    var writes := Writes(f, x.Targets());
    TargetsAreMarked(x);
    forall w | w in writes
      ensures Apart(w.path, q)
    {
      var i :| 0 <= i < |writes| && writes[i] == w;
      assert x.Targets()[i] in x.Targets();
    }
    SetAllElsewhere(x.event.dump, writes, q);
  }

  lemma {:induction false} MaskedElsewhere(x: Trip, q: Path)
    requires forall t :: x.IsMarked(t) ==> Apart(t.path, q)
    ensures GetPath(Masked(x), q) == GetPath(x.event.dump, q)
  {
    WrittenElsewhere(x, ExpectedIn(x), q);
  }

  /******* Field by field, from the type and the event alone *******/

  // The subject a field is encrypted for: the text of the attribute named by the field's own
  // configuration, else by the type; the stream's name if that is falsy or none is named.
  predicate IsOwner(x: Trip, config: Encrypted, owner: string) {
    var own := config.subjectField;
    var field := if own.Some? && own.value != "" then own else x.of.dataSubject;
    if field.None? || field.value == "" then x.streamName == Some(owner)
    else
      && field.value in x.event.attributes
      && match x.event.attributes[field.value]
         case Text(text) => if text != "" then owner == text else x.streamName == Some(owner)
         case Other(truthy) => !truthy && x.streamName == Some(owner)
  }

  // The subject decryption asks for, if it is a text: what the document holds under that name,
  // else the stream's name.
  predicate IsAsked(x: Trip, config: Encrypted, asked: Option<string>) {
    var own := config.subjectField;
    var field := if own.Some? && own.value != "" then own else x.of.dataSubject;
    if field.None? || field.value == "" then asked == if x.streamName.Some? then x.streamName else Some("")
    else
      var held := GetPath(x.event.dump, [field.value]);
      held.Some? && asked == if held.value.Str? then Some(held.value.text) else None
  }

  function TextOf(c: Cipher, value: Json): string {
    match value
    case Str(text) => text
    case _ => c.dumps(value)
  }

  function ReadBack(c: Cipher, text: string): Json {
    match c.loads(text)
    case Some(v) => v
    case None => Str(text)
  }

  lemma {:induction false} OwnerIsWriter(x: Trip, t: Target, owner: string)
    ensures IsOwner(x, t.config, owner) <==> x.Writer(t) == Success(Text(owner))
  {
  }

  lemma {:induction false} AskedIsReader(x: Trip, t: Target, asked: Option<string>)
    requires Given(SubjectField(x.of, t)) ==> '.' !in SubjectField(x.of, t).value
    requires IsAsked(x, t.config, asked)
    ensures x.Reader(t).Some?
    ensures KeyOf(x.left, x.Reader(t).value)
         == if asked.Some? && asked.value in x.left then Some(x.left[asked.value]) else None
  {
    var field := SubjectField(x.of, t);
    if Given(field) {
      PlainNameIsPath(x.event.dump, field.value);
    }
  }

  lemma {:induction false} FieldSpelledOut(x: Trip, t: Target, owner: string, asked: Option<string>)
    requires x.Ready() && x.IsMarked(t) && IsOwner(x, t.config, owner) && IsAsked(x, t.config, asked)
    ensures GetPath(x.event.dump, t.path).Some? && owner in x.keys
    ensures var hidden := x.cipher.encrypt(TextOf(x.cipher, GetPath(x.event.dump, t.path).value), x.keys[owner]);
            && HiddenIn(x)(t) == Str(hidden)
            && OutcomeIn(x)(t)
               == if asked.Some? && asked.value in x.left
                  then ReadBack(x.cipher, x.cipher.decrypt(hidden, x.left[asked.value]))
                  else t.config.mask
  {
    OwnerIsWriter(x, t, owner);
    assert InTheClear(x.of, t, t);
    AskedIsReader(x, t, asked);
    hide GetPath, IsOwner, IsAsked;
  }

  // Encrypting hides every marked field, and decrypting with the keys left shows it to whom it
  // asks for, or not at all.
  lemma {:induction false} TripByField(x: Trip, t: Target, owner: string, asked: Option<string>)
    requires x.Ready() && x.IsMarked(t) && IsOwner(x, t.config, owner) && IsAsked(x, t.config, asked)
    ensures GetPath(x.event.dump, t.path).Some? && owner in x.keys
    ensures var encrypted := EncryptAll(x.cipher, x.of, x.keys, x.streamName, x.event, x.event.dump, x.Targets());
            && encrypted.Success?
            && var decrypted := DecryptAll(x.cipher, x.of, x.left, x.streamName, encrypted.value, x.Targets());
            && decrypted.Success?
            && var hidden := x.cipher.encrypt(TextOf(x.cipher, GetPath(x.event.dump, t.path).value), x.keys[owner]);
            && GetPath(encrypted.value, t.path) == Some(Str(hidden))
            && GetPath(decrypted.value, t.path)
               == if asked.Some? && asked.value in x.left
                  then Some(ReadBack(x.cipher, x.cipher.decrypt(hidden, x.left[asked.value])))
                  else Some(t.config.mask)
  {
    TargetsAreMarked(x);
    EncryptedPathsAreAntichain(x.of.fields);
    FieldSpelledOut(x, t, owner, asked);
    EncryptIsSetAll(x, x.event.dump, x.Targets());
    EncryptShredDecrypt(x);
    hide HiddenIn, OutcomeIn, Antichain, EncryptAll, DecryptAll, Writes, GetPath, IsOwner, IsAsked, TextOf, ReadBack;
    FieldHolds(HiddenIn(x), x.Targets(), x.event.dump, t);
    FieldHolds(OutcomeIn(x), x.Targets(), x.event.dump, t);
  }

  // Nothing else in the document changes either way.
  lemma {:induction false} TripElsewhere(x: Trip, q: Path)
    requires x.Ready() && forall t :: x.IsMarked(t) ==> Apart(t.path, q)
    ensures var encrypted := EncryptAll(x.cipher, x.of, x.keys, x.streamName, x.event, x.event.dump, x.Targets());
            && encrypted.Success?
            && var decrypted := DecryptAll(x.cipher, x.of, x.left, x.streamName, encrypted.value, x.Targets());
            && decrypted.Success?
            && GetPath(encrypted.value, q) == GetPath(decrypted.value, q) == GetPath(x.event.dump, q)
  {
    TargetsAreMarked(x);
    EncryptedPathsAreAntichain(x.of.fields);
    EncryptIsSetAll(x, x.event.dump, x.Targets());
    EncryptShredDecrypt(x);
    WrittenElsewhere(x, HiddenIn(x), q);
    WrittenElsewhere(x, OutcomeIn(x), q);
  }

  lemma {:induction false} SucceedsIff(x: Trip, data: Doc, targets: seq<Target>)
    requires Antichain(targets) && forall t :: t in targets ==> GetPath(data, t.path) == x.Value(t)
    ensures EncryptAll(x.cipher, x.of, x.keys, x.streamName, x.event, data, targets).Success?
            <==> forall t :: t in targets ==> x.Encryptable(t)
    decreases |targets|
  {
    if targets != [] {
      var t := targets[0];
      assert t in targets && forall u :: u in targets <==> u == t || u in targets[1..];
      if x.Encryptable(t) {
        var next := SetPath(data, t.path, x.Hidden(t));
        AntichainTail(targets);
        forall u | u in targets[1..]
          ensures GetPath(next, u.path) == x.Value(u)
        {
          GetElsewhere(data, t.path, x.Hidden(t), u.path);
        }
        SucceedsIff(x, next, targets[1..]);
      }
    }
  }

  // Encryption succeeds if and only if every marked field is in the document and its owner,
  // a text, has a key.
  lemma {:induction false} EncryptsIff(x: Trip)
    requires Proper(x.of.fields)
    ensures EncryptAll(x.cipher, x.of, x.keys, x.streamName, x.event, x.event.dump, x.Targets()).Success? <==>
            forall t :: x.IsMarked(t) ==>
              GetPath(x.event.dump, t.path).Some? && exists owner :: IsOwner(x, t.config, owner) && owner in x.keys
  {
    TargetsAreMarked(x);
    EncryptedPathsAreAntichain(x.of.fields);
    SucceedsIff(x, x.event.dump, x.Targets());
    forall t
      ensures x.Encryptable(t) <==>
              GetPath(x.event.dump, t.path).Some? && exists owner :: IsOwner(x, t.config, owner) && owner in x.keys
    {
      if x.Encryptable(t) {
        OwnerIsWriter(x, t, x.Writer(t).value.text);
      }
      forall owner | IsOwner(x, t.config, owner)
        ensures x.Writer(t) == Success(Text(owner))
      {
        OwnerIsWriter(x, t, owner);
      }
    }
  }

  // The encrypted document does not depend on the order in which the fields are visited.
  lemma {:induction false} FieldOrderIsIrrelevant(x: Trip, a: seq<Target>, b: seq<Target>)
    requires Antichain(a) && Antichain(b) && multiset(a) == multiset(b)
    requires forall t :: t in a ==> x.Encryptable(t)
    ensures EncryptAll(x.cipher, x.of, x.keys, x.streamName, x.event, x.event.dump, a)
         == EncryptAll(x.cipher, x.of, x.keys, x.streamName, x.event, x.event.dump, b)
  {
    forall t | t in b
      ensures x.Encryptable(t)
    {
      assert t in multiset(a);
    }
    EncryptIsSetAll(x, x.event.dump, a);
    EncryptIsSetAll(x, x.event.dump, b);
    var f := HiddenIn(x);
    MapPermutes((t: Target) => Write(t.path, f(t)), a, b);
    WritesIndependent(f, a, x.event.dump);
    WritesIndependent(f, b, x.event.dump);
    SetAllAnyOrder(x.event.dump, Writes(f, a), Writes(f, b));
  }
}
