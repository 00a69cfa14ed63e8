/** The ingestion job record and its JSON form. JSON keys are constructors, one per field of the
    record, and `Other` for every key that names no field. */
module IngestionJob {
  import opened Options

  datatype Job = Job(
    documentId: string,
    filePath: string,
    collection: string,
    provider: string,
    model: string,
    dimension: int,
    chunkSize: int,
    chunkOverlap: int,
    strategy: string,
    tenantField: Option<string>,
    baseUrl: Option<string>,
    multimodal: bool,
    enrichment: bool,
    collectionEpoch: int,
    documentEpoch: int,
    attempt: int,
    maxAttempts: int,
    released: bool,
    jobId: string)

  datatype Json = Null | Bool(flag: bool) | Number(number: int) | Text(text: string)

  datatype Key =
    | DocumentId | FilePath | Collection | Provider | Model | Dimension | ChunkSize | ChunkOverlap
    | Strategy | TenantField | BaseUrl | Multimodal | Enrichment | CollectionEpoch | DocumentEpoch
    | Attempt | MaxAttempts | Released | JobId
    | Other(name: string)

  /** The bytes of a list entry or of a message, as far as the JSON reader tells them apart. */
  datatype Raw = NotJson | NotAnObject | Object(members: map<Key, Json>)

  /** What reading an entry does: a job; one of the errors the callers catch (`ValueError`,
      `TypeError`); or the `AttributeError` of a JSON value without `items()`, which they do not. */
  datatype Reading = Read(job: Job) | Malformed | Escapes

  function OfOption(o: Option<string>): Json {
    match o
    case None => Null
    case Some(text) => Text(text)
  }

  const FIELDS: set<Key> :=
    {DocumentId, FilePath, Collection, Provider, Model, Dimension, ChunkSize, ChunkOverlap,
     Strategy, TenantField, BaseUrl, Multimodal, Enrichment, CollectionEpoch, DocumentEpoch,
     Attempt, MaxAttempts, Released, JobId}

  /** What the record writes under a key. */
  function Member(j: Job, k: Key): Json {
    match k
    case DocumentId => Text(j.documentId)
    case FilePath => Text(j.filePath)
    case Collection => Text(j.collection)
    case Provider => Text(j.provider)
    case Model => Text(j.model)
    case Dimension => Number(j.dimension)
    case ChunkSize => Number(j.chunkSize)
    case ChunkOverlap => Number(j.chunkOverlap)
    case Strategy => Text(j.strategy)
    case TenantField => OfOption(j.tenantField)
    case BaseUrl => OfOption(j.baseUrl)
    case Multimodal => Bool(j.multimodal)
    case Enrichment => Bool(j.enrichment)
    case CollectionEpoch => Number(j.collectionEpoch)
    case DocumentEpoch => Number(j.documentEpoch)
    case Attempt => Number(j.attempt)
    case MaxAttempts => Number(j.maxAttempts)
    case Released => Bool(j.released)
    case JobId => Text(j.jobId)
    case Other(_) => Null
  }

  function Serialize(j: Job): Raw {
    Object(map k | k in FIELDS :: Member(j, k))
  }

  const REQUIRED: set<Key> :=
    {DocumentId, FilePath, Collection, Provider, Model, Dimension, ChunkSize, ChunkOverlap}

  function Get(m: map<Key, Json>, k: Key, default: Json): Json {
    if k in m then m[k] else default
  }

  predicate Optional(v: Json) {
    v.Null? || v.Text?
  }

  /** The type that a field's value has. */
  predicate TypeFits(k: Key, v: Json) {
    match k
    case Dimension => v.Number?
    case ChunkSize => v.Number?
    case ChunkOverlap => v.Number?
    case CollectionEpoch => v.Number?
    case DocumentEpoch => v.Number?
    case Attempt => v.Number?
    case MaxAttempts => v.Number?
    case Multimodal => v.Bool?
    case Enrichment => v.Bool?
    case Released => v.Bool?
    case TenantField => Optional(v)
    case BaseUrl => Optional(v)
    case Other(_) => true
    case _ => v.Text?
  }

  predicate WellTyped(m: map<Key, Json>) {
    forall k | k in m :: TypeFits(k, m[k])
  }

  function ToOption(v: Json): Option<string>
    requires Optional(v)
  {
    if v.Null? then None else Some(v.text)
  }

  predicate Readable(m: map<Key, Json>) {
    REQUIRED <= m.Keys && WellTyped(m)
  }

  /** The record of an object; `newId` is the random id a record without one is given. */
  function Build(m: map<Key, Json>, newId: string): Job
    requires Readable(m)
  {
    Job(
      m[DocumentId].text, m[FilePath].text, m[Collection].text, m[Provider].text, m[Model].text,
      m[Dimension].number, m[ChunkSize].number, m[ChunkOverlap].number,
      Get(m, Strategy, Text("paragraph")).text,
      ToOption(Get(m, TenantField, Null)), ToOption(Get(m, BaseUrl, Null)),
      Get(m, Multimodal, Bool(false)).flag, Get(m, Enrichment, Bool(false)).flag,
      Get(m, CollectionEpoch, Number(0)).number, Get(m, DocumentEpoch, Number(0)).number,
      Get(m, Attempt, Number(0)).number, Get(m, MaxAttempts, Number(3)).number,
      Get(m, Released, Bool(false)).flag,
      Get(m, JobId, Text(newId)).text)
  }

  function Deserialize(data: Raw, newId: string): Reading {
    match data
    case NotJson => Malformed
    case NotAnObject => Escapes
    case Object(m) => if Readable(m) then Read(Build(m, newId)) else Malformed
  }

  /** Reading an object succeeds only with every field that has no default. */
  lemma RequiredFieldsAreThere(m: map<Key, Json>, newId: string)
    requires Deserialize(Object(m), newId).Read?
    ensures DocumentId in m && FilePath in m && Collection in m && Provider in m
    ensures Model in m && Dimension in m && ChunkSize in m && ChunkOverlap in m
  {
    assert DocumentId in REQUIRED && FilePath in REQUIRED && Collection in REQUIRED && Provider in REQUIRED;
    assert Model in REQUIRED && Dimension in REQUIRED && ChunkSize in REQUIRED && ChunkOverlap in REQUIRED;
    hide REQUIRED;
  }

  /** A field that an older record lacks takes its default; a record without an id gets the fresh one. */
  lemma AbsentFieldsDefault(m: map<Key, Json>, newId: string)
    requires Deserialize(Object(m), newId).Read?
    ensures var j := Deserialize(Object(m), newId).job;
            && (Strategy !in m ==> j.strategy == "paragraph")
            && (TenantField !in m ==> j.tenantField == None)
            && (BaseUrl !in m ==> j.baseUrl == None)
            && (Multimodal !in m ==> !j.multimodal)
            && (Enrichment !in m ==> !j.enrichment)
            && (CollectionEpoch !in m ==> j.collectionEpoch == 0)
            && (DocumentEpoch !in m ==> j.documentEpoch == 0)
            && (Attempt !in m ==> j.attempt == 0)
            && (MaxAttempts !in m ==> j.maxAttempts == 3)
            && (Released !in m ==> !j.released)
            && (JobId !in m ==> j.jobId == newId)
  {
    hide REQUIRED, TypeFits;
  }

  lemma SameMembers(m: map<Key, Json>, extra: map<Key, Json>)
    requires forall k <- extra :: k.Other?
    ensures Readable(m + extra) <==> Readable(m)
    ensures forall k: Key, d: Json | !k.Other? :: Get(m + extra, k, d) == Get(m, k, d)
  {
    assert forall k: Key | !k.Other? :: k in m + extra <==> k in m;
    RequiredStay(m, extra);
    hide REQUIRED;
  }

  lemma RequiredStay(m: map<Key, Json>, extra: map<Key, Json>)
    requires forall k <- extra :: k.Other?
    ensures REQUIRED <= (m + extra).Keys <==> REQUIRED <= m.Keys
  {
    assert forall k <- REQUIRED :: k in m + extra <==> k in m;
  }

  /** Keys that name no field change nothing. */
  lemma UnknownKeysAreIgnored(data: Raw, extra: map<Key, Json>, newId: string)
    requires data.Object? && forall k <- extra :: k.Other?
    ensures Deserialize(Object(data.members + extra), newId) == Deserialize(data, newId)
  {
    SameMembers(data.members, extra);
    hide WellTyped, Get;
  }

  lemma MemberWritten(j: Job, k: Key)
    requires !k.Other?
    ensures var m := Serialize(j).members; k in m && m[k] == Member(j, k) && forall d :: Get(m, k, d) == Member(j, k)
  {}

  lemma RequiredComeBack(j: Job, newId: string)
    requires Readable(Serialize(j).members)
    ensures var b := Build(Serialize(j).members, newId);
            && b.documentId == j.documentId && b.filePath == j.filePath && b.collection == j.collection
            && b.provider == j.provider && b.model == j.model && b.dimension == j.dimension
            && b.chunkSize == j.chunkSize && b.chunkOverlap == j.chunkOverlap
  {
    hide Readable, Get, Serialize, FIELDS;
    MemberWritten(j, DocumentId); MemberWritten(j, FilePath); MemberWritten(j, Collection); MemberWritten(j, Provider);
    MemberWritten(j, Model); MemberWritten(j, Dimension); MemberWritten(j, ChunkSize); MemberWritten(j, ChunkOverlap);
  }

  lemma OptionsComeBack(j: Job, newId: string)
    requires Readable(Serialize(j).members)
    ensures var b := Build(Serialize(j).members, newId);
            && b.strategy == j.strategy && b.tenantField == j.tenantField && b.baseUrl == j.baseUrl
  {
    hide Readable, Get, Serialize, FIELDS;
    MemberWritten(j, Strategy); MemberWritten(j, TenantField); MemberWritten(j, BaseUrl);
  }

  lemma SwitchesComeBack(j: Job, newId: string)
    requires Readable(Serialize(j).members)
    ensures var b := Build(Serialize(j).members, newId);
            b.multimodal == j.multimodal && b.enrichment == j.enrichment && b.jobId == j.jobId
  {
    hide Readable, Get, Serialize, FIELDS;
    MemberWritten(j, Multimodal); MemberWritten(j, Enrichment); MemberWritten(j, JobId);
  }

  lemma ProgressComesBack(j: Job, newId: string)
    requires Readable(Serialize(j).members)
    ensures var b := Build(Serialize(j).members, newId);
            && b.collectionEpoch == j.collectionEpoch && b.documentEpoch == j.documentEpoch
            && b.attempt == j.attempt && b.maxAttempts == j.maxAttempts && b.released == j.released
  {
    hide Readable, Get, Serialize, FIELDS;
    MemberWritten(j, CollectionEpoch); MemberWritten(j, DocumentEpoch); MemberWritten(j, Attempt);
    MemberWritten(j, MaxAttempts); MemberWritten(j, Released);
  }

  /** Reading what was written gives the record back, whatever id a record without one would get, and
      also when keys that name no field were added. */
  lemma RoundTrip(j: Job, extra: map<Key, Json>, newId: string)
    requires forall k <- extra :: k.Other?
    ensures Deserialize(Object(Serialize(j).members + extra), newId) == Read(j)
    ensures Deserialize(Serialize(j), newId) == Read(j)
  {
    WrittenIsReadable(j);
    RequiredComeBack(j, newId);
    OptionsComeBack(j, newId);
    SwitchesComeBack(j, newId);
    ProgressComesBack(j, newId);
    UnknownKeysAreIgnored(Serialize(j), extra, newId);
    hide Build, Readable;
  }

  lemma WrittenIsReadable(j: Job)
    ensures Serialize(j).Object? && Readable(Serialize(j).members)
  {
    assert REQUIRED <= FIELDS;
    forall k | k in FIELDS
      ensures TypeFits(k, Member(j, k))
    {}
  }

  /** Two jobs with the same bytes are the same job. */
  lemma SerializeIsInjective(a: Job, b: Job)
    requires Serialize(a) == Serialize(b)
    ensures a == b
  {
    RoundTrip(a, map[], "");
    RoundTrip(b, map[], "");
  }
}
