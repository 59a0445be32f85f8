/** Header fields and the linear search that both tables use. */
module Fields {
  import opened Bytes

  datatype Field = Field(name: bytes, value: bytes)

  datatype Header = Header(field: Field, neverIndexed: bool)

  /** The field list a header list stands for; `neverIndexed` steers the encoding only. */
  function FieldsOf(headers: seq<Header>): (r: seq<Field>)
    ensures |r| == |headers| && forall i :: 0 <= i < |r| ==> r[i] == headers[i].field
  {
    seq(|headers|, i requires 0 <= i < |headers| => headers[i].field)
  }

  /** The outcome of a search: where the field is, and where its name is. */
  datatype Match = Match(exact: Option<nat>, name: Option<nat>)

  function FirstExact(entries: seq<Field>, f: Field, i: nat): (r: Option<nat>)
    requires i <= |entries|
    ensures r.Some? ==> i <= r.value < |entries| && entries[r.value] == f
    ensures forall j :: i <= j < (if r.Some? then r.value else |entries|) ==> entries[j] != f
    decreases |entries| - i
  {
    if i == |entries| then None else if entries[i] == f then Some(i) else FirstExact(entries, f, i + 1)
  }

  function FirstName(entries: seq<Field>, name: bytes, i: nat): (r: Option<nat>)
    requires i <= |entries|
    ensures r.Some? ==> i <= r.value < |entries| && entries[r.value].name == name
    ensures forall j :: i <= j < (if r.Some? then r.value else |entries|) ==> entries[j].name != name
    decreases |entries| - i
  {
    if i == |entries| then None else if entries[i].name == name then Some(i) else FirstName(entries, name, i + 1)
  }

  /** The first exact match if there is one, else the first entry with the same name. */
  function Find(entries: seq<Field>, f: Field): Match {
    var exact := FirstExact(entries, f, 0);
    Match(exact, if exact.Some? then exact else FirstName(entries, f.name, 0))
  }

  /** The search loop: one pass, which an exact match cuts short. */
  method Search(entries: seq<Field>, f: Field) returns (m: Match)
    ensures m == Find(entries, f)
  {
    var nameMatch: Option<nat> := None;
    for i := 0 to |entries|
      invariant FirstExact(entries, f, 0) == FirstExact(entries, f, i)
      invariant FirstName(entries, f.name, 0) == if nameMatch.Some? then nameMatch else FirstName(entries, f.name, i)
    {
      if entries[i].name == f.name {
        if entries[i].value == f.value {
          return Match(Some(i), Some(i));
        }
        if nameMatch.None? {
          nameMatch := Some(i);
        }
      }
    }
    return Match(None, nameMatch);
  }
}
