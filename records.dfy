/** The project record, the partial records used as patches, and the
    JavaScript truthiness tests the code applies to their optional fields
    (src/store.ts:10-19). */
module Records {

  datatype Option<+T> = None | Some(value: T)

  type Id = string

  /** A project record. A field the record does not carry is `None`. */
  datatype Project = Project(
    id: Id,
    name: Option<string>,
    dateCreated: Option<int>,
    weight: Option<int>)

  /** One field of a patch: the key is either missing from the object, or
      present with a value that may itself be `undefined` (`Put(None)`).
      Object spread copies a present key even when its value is `undefined`. */
  datatype Field<T> = Keep | Put(value: Option<T>)

  /** A partial project, keyed by id, as passed to the edit commands. */
  datatype Patch = Patch(
    id: Id,
    name: Field<string>,
    dateCreated: Field<int>,
    weight: Field<int>)

  /** The store's status flag ('IDLE' or 'LOADING'). */
  datatype Status = Idle | Loading

  /** A number is truthy unless it is missing or zero. */
  predicate TruthyWeight(w: Option<int>) {
    w.Some? && w.value != 0
  }

  /** A string is truthy unless it is missing or empty. */
  predicate TruthyName(s: Option<string>) {
    s.Some? && s.value != ""
  }

  function Assign<T>(current: Option<T>, f: Field<T>): Option<T> {
    match f
    case Keep => current
    case Put(v) => v
  }

  /** `{...p, ...patch}`: every key present in the patch overrides the
      record's, including a present `undefined`; missing keys keep the
      record's value. */
  function Merge(p: Project, patch: Patch): (r: Project)
    ensures r.id == patch.id
    ensures patch.name.Keep? ==> r.name == p.name
    ensures patch.name.Put? ==> r.name == patch.name.value
    ensures patch.dateCreated.Keep? ==> r.dateCreated == p.dateCreated
    ensures patch.dateCreated.Put? ==> r.dateCreated == patch.dateCreated.value
    ensures patch.weight.Keep? ==> r.weight == p.weight
    ensures patch.weight.Put? ==> r.weight == patch.weight.value
  {
    Project(patch.id, Assign(p.name, patch.name),
            Assign(p.dateCreated, patch.dateCreated),
            Assign(p.weight, patch.weight))
  }

  /** The ids of a list of records, in order. */
  function Ids(ps: seq<Project>): (r: seq<Id>)
    ensures |r| == |ps|
    ensures forall i :: 0 <= i < |ps| ==> r[i] == ps[i].id
  {
    seq(|ps|, i requires 0 <= i < |ps| => ps[i].id)
  }

  /** No two records share an id. */
  ghost predicate UniqueIds(ps: seq<Project>) {
    forall i, j :: 0 <= i < j < |ps| ==> ps[i].id != ps[j].id
  }
}
