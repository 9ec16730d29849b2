/** The zone policy matrix as ALLOW and DENY edges between zone nodes, and back. */
module PolicyMatrix {

  /** A pair of zone names. */
  datatype Path = Path(src: string, dst: string)

  datatype Edges = Edges(allow: set<Path>, deny: set<Path>)

  /** Merges one edge: any verdict but ALLOW is a DENY, and nothing without both zone nodes. */
  function MergeVerdict(zones: set<string>, e: Edges, path: Path, verdict: string): Edges {
    if path.src !in zones || path.dst !in zones then e
    else if verdict == "ALLOW" then e.(allow := e.allow + {path})
    else e.(deny := e.deny + {path})
  }

  /** The edges a matrix leaves in a wiped graph. */
  method WritePolicyMatrix(zones: set<string>, matrix: map<Path, string>) returns (e: Edges, count: nat)
    ensures forall path :: path in e.allow <==>
              path in matrix && path.src in zones && path.dst in zones && matrix[path] == "ALLOW"
    ensures forall path :: path in e.deny <==>
              path in matrix && path.src in zones && path.dst in zones && matrix[path] != "ALLOW"
    ensures count == |matrix|
  {
    e, count := Edges({}, {}), 0;
    var rest := matrix.Keys;
    while rest != {}
      invariant rest <= matrix.Keys && count + |rest| == |matrix.Keys|
      invariant forall path :: path in e.allow <==>
                  path in matrix.Keys - rest && path.src in zones && path.dst in zones && matrix[path] == "ALLOW"
      invariant forall path :: path in e.deny <==>
                  path in matrix.Keys - rest && path.src in zones && path.dst in zones && matrix[path] != "ALLOW"
      decreases |rest|
    {
      var path :| path in rest;
      e := MergeVerdict(zones, e, path, matrix[path]);
      rest := rest - {path};
      count := count + 1;
    }
  }

  /** The inner loop: one verdict's rows, written over what is there. */
  method ReadVerdict(before: map<Path, string>, rows: seq<Path>, verdict: string) returns (out: map<Path, string>)
    ensures forall path :: path in out <==> path in before || path in rows
    ensures forall path :: path in out ==> out[path] == if path in rows then verdict else before[path]
  {
    out := before;
    for i := 0 to |rows|
      invariant forall path :: path in out <==> path in before || path in rows[..i]
      invariant forall path :: path in out ==> out[path] == if path in rows[..i] then verdict else before[path]
    {
      assert rows[..i + 1] == rows[..i] + [rows[i]];
      out := out[rows[i] := verdict];
    }
    assert rows[..|rows|] == rows;
  }

  /** Reads the ALLOW rows, then the DENY rows over them. */
  method ReadPolicyMatrix(allow: seq<Path>, deny: seq<Path>) returns (out: map<Path, string>)
    ensures forall path :: path in out <==> path in allow || path in deny
    ensures forall path :: path in out ==> out[path] == if path in deny then "DENY" else "ALLOW"
  {
    out := ReadVerdict(map[], allow, "ALLOW");
    out := ReadVerdict(out, deny, "DENY");
  }

  /** Reading back the edges that were written, in any order, gives the same matrix exactly when
      every zone has its node and every verdict is one of the two. */
  lemma {:induction false} RoundTripIff(zones: set<string>, matrix: map<Path, string>, e: Edges, out: map<Path, string>)
    requires forall path :: path in e.allow <==>
               path in matrix && path.src in zones && path.dst in zones && matrix[path] == "ALLOW"
    requires forall path :: path in e.deny <==>
               path in matrix && path.src in zones && path.dst in zones && matrix[path] != "ALLOW"
    requires forall path :: path in out <==> path in e.allow || path in e.deny
    requires forall path :: path in out ==> out[path] == if path in e.deny then "DENY" else "ALLOW"
    ensures out == matrix <==>
            forall path :: path in matrix ==>
              path.src in zones && path.dst in zones && (matrix[path] == "ALLOW" || matrix[path] == "DENY")
  {
    if out == matrix {
      forall path | path in matrix
        ensures path.src in zones && path.dst in zones && (matrix[path] == "ALLOW" || matrix[path] == "DENY")
      {
        assert path in out;
      }
    }
  }
}
