/** The project directory tree the simulate phase creates under the project
    directory: train, vali, test, networks and splitVCFs. */
module Layout {

  /** Python's os.path.join(base, child) for a child name that does not start
      with "/": no separator after an empty base or one ending in "/". */
  function Join(base: string, child: string): string {
    if base == [] || base[|base| - 1] == '/' then base + child else base + "/" + child
  }

  datatype ProjectLayout = ProjectLayout(
    project: string,
    train: string,
    vali: string,
    test: string,
    networks: string,
    splitVCFs: string)

  /** The sub-directory names, in the order they are created. */
  const ChildNames: seq<string> := ["train", "vali", "test", "networks", "splitVCFs"]

  /** The project tree: the five sub-directories are pairwise distinct, each
      lies under the project directory and differs from it, so the three
      corpora are written into three different directories. */
  function LayoutOf(projectDir: string): (l: ProjectLayout)
    ensures l.project == projectDir
    ensures Children(l) == [Join(projectDir, "train"), Join(projectDir, "vali"), Join(projectDir, "test"),
                            Join(projectDir, "networks"), Join(projectDir, "splitVCFs")]
    ensures forall i, j :: 0 <= i < j < |Children(l)| ==> Children(l)[i] != Children(l)[j]
    ensures forall i :: 0 <= i < |Children(l)| ==>
      |Children(l)[i]| > |projectDir| && Children(l)[i][..|projectDir|] == projectDir
  {
    JoinsDistinct(projectDir, ChildNames);
    var l := ProjectLayout(projectDir,
      Join(projectDir, "train"), Join(projectDir, "vali"), Join(projectDir, "test"),
      Join(projectDir, "networks"), Join(projectDir, "splitVCFs"));
    assert Children(l) == seq(|ChildNames|, i requires 0 <= i < |ChildNames| => Join(projectDir, ChildNames[i]));
    l
  }

  /** The five sub-directories, in the order they are created. */
  function Children(l: ProjectLayout): seq<string> {
    [l.train, l.vali, l.test, l.networks, l.splitVCFs]
  }

  /** Joining keeps the base as a prefix and the child as a suffix. */
  lemma JoinShape(base: string, child: string)
    ensures |Join(base, child)| >= |base| + |child|
    ensures Join(base, child)[..|base|] == base
    ensures Join(base, child)[|Join(base, child)| - |child|..] == child
  {
  }

  /** Under one base, different child names give different paths. */
  lemma {:induction false} JoinInjective(base: string, c1: string, c2: string)
    ensures Join(base, c1) == Join(base, c2) ==> c1 == c2
  {
    var sep := Join(base, []);
    assert Join(base, c1) == sep + c1;
    assert Join(base, c2) == sep + c2;
    assert c1 == (sep + c1)[|sep|..];
    assert c2 == (sep + c2)[|sep|..];
  }

  /** Joining one base with distinct non-empty names gives distinct paths,
      each under the base and longer than it. */
  lemma {:induction false} JoinsDistinct(base: string, names: seq<string>)
    requires forall i, j :: 0 <= i < j < |names| ==> names[i] != names[j]
    requires forall i :: 0 <= i < |names| ==> names[i] != []
    ensures forall i, j :: 0 <= i < j < |names| ==> Join(base, names[i]) != Join(base, names[j])
    ensures forall i :: 0 <= i < |names| ==>
      |Join(base, names[i])| > |base| && Join(base, names[i])[..|base|] == base
  {
    forall i, j | 0 <= i < j < |names| ensures Join(base, names[i]) != Join(base, names[j]) {
      JoinInjective(base, names[i], names[j]);
    }
    forall i | 0 <= i < |names| ensures |Join(base, names[i])| > |base| && Join(base, names[i])[..|base|] == base {
      JoinShape(base, names[i]);
    }
  }
}
