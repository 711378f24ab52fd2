/** The index that names the subject of a Service Identity token. */
module Identity {
  import opened Outcomes

  /** Cluster, allocation and task a Service Identity token is minted for. */
  datatype ServiceIdentityIndex = ServiceIdentityIndex(clusterID: string, allocID: string, taskName: string)

  /** Checks the three fields in order and reports the first empty one. */
  function Validate(sii: ServiceIdentityIndex): (r: Outcome)
    ensures r == Pass <==> sii.clusterID != "" && sii.allocID != "" && sii.taskName != ""
    ensures r == Fail(ClusterIDNotSet) <==> sii.clusterID == ""
    ensures r == Fail(AllocIDNotSet) <==> sii.clusterID != "" && sii.allocID == ""
    ensures r == Fail(TaskNameNotSet) <==> sii.clusterID != "" && sii.allocID != "" && sii.taskName == ""
  {
    if sii.clusterID == "" then Fail(ClusterIDNotSet)
    else if sii.allocID == "" then Fail(AllocIDNotSet)
    else if sii.taskName == "" then Fail(TaskNameNotSet)
    else Pass
  }

  /** The fixed text before the first field of a token description. */
  const DescriptionHead: string := "_nomad_si ["

  /** The text between two fields of a token description. */
  const FieldSeparator: string := "] ["

  /** The token description `_nomad_si [<cluster>] [<alloc>] [<task>]`. */
  function Description(sii: ServiceIdentityIndex): (r: string)
    ensures DescriptionHead <= r && r[|r| - 1] == ']'
    ensures |r| == |DescriptionHead| + |sii.clusterID| + |sii.allocID| + |sii.taskName| + 2 * |FieldSeparator| + 1
  {
    DescriptionHead + sii.clusterID + FieldSeparator + sii.allocID + FieldSeparator + sii.taskName + "]"
  }

  /** The position of the first `c` in `s`, or `|s|` when there is none. */
  function IndexOf(s: string, c: char): (k: nat)
    ensures k <= |s|
    ensures forall i :: 0 <= i < k ==> s[i] != c
    ensures k < |s| ==> s[k] == c
  {
    if s == [] || s[0] == c then 0 else 1 + IndexOf(s[1..], c)
  }

  /** Splits `s` at its first `]`, which must open a field separator: the field before it and the text after the separator. */
  function SplitField(s: string): Option<(string, string)>
  {
    var i := IndexOf(s, ']');
    if FieldSeparator <= s[i..] then Some((s[..i], s[i + |FieldSeparator|..])) else None
  }

  /** Reads the three fields back out of a token description. */
  function ParseDescription(s: string): Option<ServiceIdentityIndex>
  {
    if !(DescriptionHead <= s) || |s| == |DescriptionHead| || s[|s| - 1] != ']' then None
    else
      match SplitField(s[|DescriptionHead|..|s| - 1])
      case None => None
      case Some((clusterID, rest)) =>
        match SplitField(rest)
        case None => None
        case Some((allocID, taskName)) => Some(ServiceIdentityIndex(clusterID, allocID, taskName))
  }

  /** `IndexOf` stops right after a field that does not contain `c`, at a tail that starts with `c`. */
  lemma IndexOfAfterField(field: string, tail: string, c: char)
    requires c !in field
    requires tail != [] && tail[0] == c
    ensures IndexOf(field + tail, c) == |field|
  {
    var s := field + tail;
    assert s[|field|] == c;
    assert forall i :: 0 <= i < |field| ==> s[i] == field[i];
  }

  /** A field without `]`, a separator and any text split back into the field and the text. */
  lemma SplitFieldRoundTrip(field: string, rest: string)
    requires ']' !in field
    ensures SplitField(field + FieldSeparator + rest) == Some((field, rest))
  {
    var s := field + (FieldSeparator + rest);
    assert s == field + FieldSeparator + rest;
    IndexOfAfterField(field, FieldSeparator + rest, ']');
    assert FieldSeparator <= FieldSeparator + rest;
    assert s[..|field|] == field;
    assert s[|field|..] == FieldSeparator + rest;
    assert s[|field| + |FieldSeparator|..] == rest;
  }

  /**
   * The description is machine-readable: when the cluster and allocation IDs hold no `]`,
   * the three fields can be read back from it.
   */
  lemma DescriptionRoundTrip(sii: ServiceIdentityIndex)
    requires ']' !in sii.clusterID && ']' !in sii.allocID
    ensures ParseDescription(Description(sii)) == Some(sii)
  {
    var s := Description(sii);
    var tail := sii.allocID + FieldSeparator + sii.taskName;
    var body := sii.clusterID + FieldSeparator + tail;
    assert s == DescriptionHead + body + "]";
    assert s[|DescriptionHead|..|s| - 1] == body;
    SplitFieldRoundTrip(sii.clusterID, tail);
    SplitFieldRoundTrip(sii.allocID, sii.taskName);
  }

  /** Two indexes whose IDs hold no `]` have the same description only if they are equal. */
  lemma DescriptionInjective(a: ServiceIdentityIndex, b: ServiceIdentityIndex)
    requires ']' !in a.clusterID && ']' !in a.allocID
    requires ']' !in b.clusterID && ']' !in b.allocID
    requires Description(a) == Description(b)
    ensures a == b
  {
    DescriptionRoundTrip(a);
    DescriptionRoundTrip(b);
  }

  /** Without that condition the description is ambiguous: a `] [` inside an ID moves a field boundary. */
  lemma DescriptionAmbiguousWithBrackets()
    ensures ServiceIdentityIndex("a] [b", "c", "d") != ServiceIdentityIndex("a", "b] [c", "d")
    ensures Description(ServiceIdentityIndex("a] [b", "c", "d")) == Description(ServiceIdentityIndex("a", "b] [c", "d"))
  {
  }

  lemma DescriptionExample()
    ensures Description(ServiceIdentityIndex("c1", "a1", "t1")) == "_nomad_si [c1] [a1] [t1]"
  {
  }
}
