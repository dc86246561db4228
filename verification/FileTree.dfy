/** A file tree as a map from paths to nodes, and the few operations the migration performs on it. */
module FileTree {
  import opened Prelude

  type Path = seq<string>

  datatype Json =
    | JNull
    | JBool(b: bool)
    | JInt(n: int)
    | JFloat(literal: string)
    | JString(s: string)
    | JArray(items: seq<Json>)
    | JObject(fields: seq<Field>)

  datatype Field = Field(key: string, value: Json)

  /** What a regular file holds, as far as a reader of JSON text can tell. */
  datatype Content =
    | Encoded(json: Json)
    | NotJson(bytes: seq<bv8>)
    | NotUtf8(bytes: seq<bv8>)

  datatype Node = File(content: Content) | Dir | Special

  type Tree = map<Path, Node>

  function Parent(p: Path): Path
    requires |p| > 0
  {
    p[..|p| - 1]
  }

  /** Every entry lies in a directory. */
  ghost predicate Rooted(t: Tree) {
    && (forall p {:trigger Parent(p)} :: |p| > 0 && p in t ==> Parent(p) in t && t[Parent(p)] == Dir)
    && [] in t && t[[]] == Dir
  }

  predicate IsDir(t: Tree, p: Path) {
    p in t && t[p].Dir?
  }

  predicate IsFile(t: Tree, p: Path) {
    p in t && t[p].File?
  }

  /** Something that is not a directory stands at `p` or above it. */
  predicate Obstructed(t: Tree, p: Path) {
    exists i :: 0 <= i <= |p| && p[..i] in t && !t[p[..i]].Dir?
  }

  /** `p` and its ancestors, as far as they do not exist yet. */
  function MissingDirs(t: Tree, p: Path): map<Path, Node> {
    map i | 0 <= i <= |p| && p[..i] !in t :: p[..i] := Dir
  }

  /** `mkdir(parents=True, exist_ok=True)`: fails on an obstruction, else creates what is missing. */
  function MakeDirs(t: Tree, p: Path): Option<Tree> {
    if Obstructed(t, p) then None else Some(t + MissingDirs(t, p))
  }

  /** A file written at `p` after creating its parent directories. */
  function WriteFile(t: Tree, p: Path, content: Content): Option<Tree>
    requires |p| > 0
  {
    var made := MakeDirs(t, Parent(p));
    if made.None? then None else Some(made.value[p := File(content)])
  }

  predicate HasChild(t: Tree, p: Path) {
    exists q :: q in t && |q| == |p| + 1 && p < q
  }

  lemma {:induction false} AncestorsAreDirs(t: Tree, p: Path, i: nat)
    requires Rooted(t) && p in t && i < |p|
    ensures p[..i] in t && t[p[..i]] == Dir
    decreases |p|
  {
    assert Parent(p) == p[..|p| - 1] && Parent(p) in t && t[Parent(p)] == Dir;
    if i < |p| - 1 {
      AncestorsAreDirs(t, Parent(p), i);
      assert Parent(p)[..i] == p[..i];
    }
  }

  lemma DirsAbove(t: Tree, p: Path)
    requires Rooted(t) && p in t
    ensures forall i :: 0 <= i < |p| ==> p[..i] in t && t[p[..i]] == Dir
    ensures p[..|p|] == p
  {
    forall i | 0 <= i < |p|
      ensures p[..i] in t && t[p[..i]] == Dir
    {
      AncestorsAreDirs(t, p, i);
    }
  }

  /** In a rooted tree only the node at `p` itself can obstruct it once it exists. */
  lemma ObstructedAtNode(t: Tree, p: Path)
    requires Rooted(t) && p in t
    ensures Obstructed(t, p) <==> !t[p].Dir?
  {
    DirsAbove(t, p);
  }

  /** What stands above a node stands above its child. */
  lemma ObstructedBelow(t: Tree, p: Path)
    requires |p| > 0 && p !in t
    ensures Obstructed(t, p) <==> Obstructed(t, Parent(p))
  {
    var q := Parent(p);
    assert forall i :: 0 <= i <= |q| ==> q[..i] == p[..i];
    assert p[..|p|] == p;
  }

  lemma MissingBelow(t: Tree, p: Path)
    requires Rooted(t) && |p| > 0 && IsDir(t, Parent(p)) && p !in t
    ensures MissingDirs(t, p) == map[p := Dir]
  {
    var q := Parent(p);
    DirsAbove(t, q);
    assert forall i :: 0 <= i <= |q| ==> q[..i] == p[..i];
    assert p[..|p|] == p;
    forall r | r in MissingDirs(t, p)
      ensures r == p
    {
      var i :| 0 <= i <= |p| && p[..i] !in t && r == p[..i];
    }
  }

  /** Making a directory below an existing one adds that directory and nothing else. */
  lemma MakeChild(t: Tree, p: Path)
    requires Rooted(t) && |p| > 0 && IsDir(t, Parent(p)) && p !in t
    ensures MakeDirs(t, p) == Some(t[p := Dir]) && Rooted(t[p := Dir])
  {
    MissingBelow(t, p);
    ObstructedBelow(t, p);
    ObstructedAtNode(t, Parent(p));
    assert t + map[p := Dir] == t[p := Dir];
  }

  /** Making an existing directory changes nothing. */
  lemma MakeExisting(t: Tree, p: Path)
    requires Rooted(t) && IsDir(t, p)
    ensures MakeDirs(t, p) == Some(t)
  {
    ObstructedAtNode(t, p);
    DirsAbove(t, p);
    assert MissingDirs(t, p) == map[];
    assert t + map[] == t;
  }

  /** Writing into an existing directory adds or replaces that file and nothing else. */
  lemma WriteInto(t: Tree, p: Path, content: Content)
    requires Rooted(t) && |p| > 0 && IsDir(t, Parent(p)) && !IsDir(t, p)
    ensures WriteFile(t, p, content) == Some(t[p := File(content)]) && Rooted(t[p := File(content)])
  {
    MakeExisting(t, Parent(p));
  }
}
