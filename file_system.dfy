/** The file-system half of design-patterns/structural/composite.py: files,
    directories whose child list is changed in place, the recursive size and
    the indented listing that `show_details` prints, returned here as its
    lines. Each directory keeps, as ghost state, the abstract tree of its
    children, and the operations are specified on that tree. */
module FileSystem {
  import opened PyStr

  /** The abstract value of a component: a file with its name and size, or a
      directory with its name and its children in order. */
  datatype FsNode = FsFile(name: string, size: int) | FsDir(name: string, children: seq<FsNode>)

  /** `get_size` on the abstract tree. */
  function FsSize(n: FsNode): int
    decreases n, 1
  {
    match n
    case FsFile(_, s) => s
    case FsDir(_, cs) => SumSizes(cs)
  }

  function SumSizes(cs: seq<FsNode>): int
    decreases cs, 0
  {
    if cs == [] then 0 else FsSize(cs[0]) + SumSizes(cs[1..])
  }

  /** The number of nodes of a tree, itself included. */
  function FsCount(n: FsNode): nat
    decreases n, 1
  {
    match n
    case FsFile(_, _) => 1
    case FsDir(_, cs) => 1 + SumCounts(cs)
  }

  function SumCounts(cs: seq<FsNode>): nat
    decreases cs, 0
  {
    if cs == [] then 0 else FsCount(cs[0]) + SumCounts(cs[1..])
  }

  const FileIcon := "\U{1F4C4}"
  const DirIcon := "\U{1F4C1}"
  const IndentStep := "    "

  /** The line `show_details` prints for a node itself. */
  function OwnLine(n: FsNode, indent: string): string {
    match n
    case FsFile(name, s) => indent + FileIcon + " " + name + " (" + IntToString(s) + " KB)"
    case FsDir(name, _) => indent + DirIcon + " " + name + " (total: " + IntToString(FsSize(n)) + " KB)"
  }

  /** Everything `show_details(indent)` prints, one line per node in preorder,
      children four spaces further in. */
  function FsLines(n: FsNode, indent: string): seq<string>
    decreases n, 1
  {
    match n
    case FsFile(_, _) => [OwnLine(n, indent)]
    case FsDir(_, cs) => [OwnLine(n, indent)] + ChildLines(cs, indent + IndentStep)
  }

  function ChildLines(cs: seq<FsNode>, indent: string): seq<string>
    decreases cs, 0
  {
    if cs == [] then [] else FsLines(cs[0], indent) + ChildLines(cs[1..], indent)
  }

  /** The listing has one line per node, each starting with the indent, and
      the first line is the node's own. */
  lemma {:induction false} LinesPerNode(n: FsNode, indent: string)
    ensures |FsLines(n, indent)| == FsCount(n)
    ensures FsLines(n, indent)[0] == OwnLine(n, indent)
    ensures forall k :: 0 <= k < |FsLines(n, indent)| ==> indent <= FsLines(n, indent)[k]
    decreases n, 1
  {
    match n
    case FsFile(_, _) =>
    case FsDir(_, cs) =>
      var inner := indent + IndentStep;
      ChildLinesPerNode(cs, inner);
      var rest := ChildLines(cs, inner);
      var lines := [OwnLine(n, indent)] + rest;
      assert FsLines(n, indent) == lines;
      assert indent <= inner;
      forall k | 1 <= k < |lines|
        ensures indent <= lines[k]
      {
        assert lines[k] == rest[k - 1];
        assert inner <= rest[k - 1];
      }
  }

  lemma {:induction false} ChildLinesPerNode(cs: seq<FsNode>, indent: string)
    ensures |ChildLines(cs, indent)| == SumCounts(cs)
    ensures forall k :: 0 <= k < |ChildLines(cs, indent)| ==> indent <= ChildLines(cs, indent)[k]
    decreases cs, 0
  {
    if cs != [] {
      LinesPerNode(cs[0], indent);
      ChildLinesPerNode(cs[1..], indent);
      var a := FsLines(cs[0], indent);
      var b := ChildLines(cs[1..], indent);
      assert ChildLines(cs, indent) == a + b;
      forall k | 0 <= k < |a + b|
        ensures indent <= (a + b)[k]
      {
        if k < |a| { assert (a + b)[k] == a[k]; } else { assert (a + b)[k] == b[k - |a|]; }
      }
    }
  }

  /** Sizes add up over concatenated child lists. */
  lemma {:induction false} SumSizesAppend(a: seq<FsNode>, b: seq<FsNode>)
    ensures SumSizes(a + b) == SumSizes(a) + SumSizes(b)
    decreases |a|
  {
    if a != [] {
      SumSizesAppend(a[1..], b);
      assert (a + b)[1..] == a[1..] + b;
    } else {
      assert a + b == b;
    }
  }

  /** Appending a child raises the size by the child's size. */
  lemma SizeAfterAppend(cs: seq<FsNode>, x: FsNode)
    ensures SumSizes(cs + [x]) == SumSizes(cs) + FsSize(x)
  {
    SumSizesAppend(cs, [x]);
    assert [x][1..] == [];
  }

  /** Dropping child i lowers the size by that child's size. */
  lemma SizeAfterRemove(cs: seq<FsNode>, i: nat)
    requires i < |cs|
    ensures SumSizes(cs[..i] + cs[i + 1..]) == SumSizes(cs) - FsSize(cs[i])
  {
    SumSizesAppend(cs[..i], cs[i + 1..]);
    SumSizesAppend(cs[..i], [cs[i]] + cs[i + 1..]);
    assert cs[..i] + ([cs[i]] + cs[i + 1..]) == cs;
    assert ([cs[i]] + cs[i + 1..])[1..] == cs[i + 1..];
  }

  /** A file: the name and size given at construction never change. */
  class File {
    const name: string
    const size: int

    constructor(name: string, size: int)
      ensures this.name == name && this.size == size
    {
      this.name := name;
      this.size := size;
    }

    ghost function Tree(): FsNode {
      FsFile(name, size)
    }

    /** `get_size` */
    function GetSize(): (s: int)
      ensures s == FsSize(Tree())
    {
      size
    }

    /** `show_details(indent)` */
    function ShowDetails(indent: string): (lines: seq<string>)
      ensures lines == FsLines(Tree(), indent)
    {
      [indent + FileIcon + " " + name + " (" + IntToString(size) + " KB)"]
    }
  }

  /** What a directory holds: a file or another directory, by reference. */
  datatype Component = FileC(file: File) | DirC(dir: Directory)

  /** The objects a component's size and listing depend on. */
  ghost function CRepr(c: Component): set<object>
    reads if c.DirC? then {c.dir} else {}
  {
    if c.DirC? then c.dir.Repr else {}
  }

  ghost predicate CValid(c: Component)
    reads if c.DirC? then {c.dir} else {}, CRepr(c)
  {
    c.DirC? ==> c.dir.Valid()
  }

  /** The current abstract value of a component. */
  ghost function CTree(c: Component): FsNode
    reads if c.DirC? then {c.dir} else {}
  {
    match c
    case FileC(f) => FsFile(f.name, f.size)
    case DirC(d) => FsDir(d.name, d.contents)
  }

  /** The index `list.remove` deletes: the first child equal to c. */
  function FirstIndex(cs: seq<Component>, c: Component): (i: nat)
    requires c in cs
    ensures i < |cs| && cs[i] == c && forall j :: 0 <= j < i ==> cs[j] != c
  {
    if cs[0] == c then 0 else 1 + FirstIndex(cs[1..], c)
  }

  class Directory {
    const name: string
    var children: seq<Component>
    /** The abstract trees of the children, in order. */
    ghost var contents: seq<FsNode>
    /** This directory and every directory below it. */
    ghost var Repr: set<object>

    ghost predicate Valid()
      reads this, Repr
      decreases Repr, 1
    {
      this in Repr && |contents| == |children|
      && forall i :: 0 <= i < |children| ==> ChildValid(i)
    }

    /** Child i is a file whose tree is recorded, or a valid directory below
        this one, not containing it, whose tree is recorded. */
    ghost predicate ChildValid(i: int)
      reads this, Repr
      decreases Repr, 0
    {
      this in Repr && 0 <= i < |children| && i < |contents|
      && match children[i]
         case FileC(f) => contents[i] == FsFile(f.name, f.size)
         case DirC(d) =>
           d in Repr && d.Repr <= Repr && this !in d.Repr && d.Valid()
           && contents[i] == FsDir(d.name, d.contents)
    }

    ghost function Tree(): FsNode
      reads this
    {
      FsDir(name, contents)
    }

    constructor(name: string)
      ensures Valid() && fresh(Repr)
      ensures this.name == name && children == [] && Tree() == FsDir(name, [])
    {
      this.name := name;
      children := [];
      contents := [];
      Repr := {this};
    }

    /** `get_size`: the sum over the children, 0 for an empty directory. */
    function GetSize(): (s: int)
      reads this, Repr
      requires Valid()
      ensures s == FsSize(Tree())
      decreases Repr, 2, 0
    {
      SizeFrom(0)
    }

    function SizeFrom(i: nat): (s: int)
      reads this, Repr
      requires Valid() && i <= |children|
      ensures s == SumSizes(contents[i..])
      decreases Repr, 1, |children| - i
    {
      if i == |children| then 0
      else
        assert ChildValid(i);
        assert contents[i..][1..] == contents[i + 1..];
        var here := match children[i]
                    case FileC(f) => f.GetSize()
                    case DirC(d) => d.GetSize();
        here + SizeFrom(i + 1)
    }

    /** `show_details(indent)`, as the lines it prints. */
    function ShowDetails(indent: string): (lines: seq<string>)
      reads this, Repr
      requires Valid()
      ensures lines == FsLines(Tree(), indent)
      decreases Repr, 2, 0
    {
      [indent + DirIcon + " " + name + " (total: " + IntToString(GetSize()) + " KB)"]
        + DetailsFrom(0, indent + IndentStep)
    }

    function DetailsFrom(i: nat, indent: string): (lines: seq<string>)
      reads this, Repr
      requires Valid() && i <= |children|
      ensures lines == ChildLines(contents[i..], indent)
      decreases Repr, 1, |children| - i
    {
      if i == |children| then []
      else
        assert ChildValid(i);
        assert contents[i..][1..] == contents[i + 1..];
        var here := match children[i]
                    case FileC(f) => f.ShowDetails(indent)
                    case DirC(d) => d.ShowDetails(indent);
        here + DetailsFrom(i + 1, indent)
    }

    /** `add`: the component goes at the end, the other children stay in
        order, and the size grows by the component's size. */
    method Add(c: Component)
      requires Valid() && CValid(c) && this !in CRepr(c)
      modifies this
      ensures Valid()
      ensures children == old(children) + [c]
      ensures contents == old(contents) + [old(CTree(c))]
      ensures Repr == old(Repr) + CRepr(c)
      ensures FsSize(Tree()) == old(FsSize(Tree())) + FsSize(old(CTree(c)))
    {
      SizeAfterAppend(contents, CTree(c));
      children := children + [c];
      contents := contents + [CTree(c)];
      Repr := Repr + CRepr(c);
      assert ChildValid(|children| - 1);
      forall i | 0 <= i < |children| - 1
        ensures ChildValid(i)
      {
        assert old(ChildValid(i));
      }
    }

    /** `remove`: the first child equal to c is deleted and the rest keep
        their order, lowering the size by its size; `raised` stands for the
        ValueError when no child equals c, and then nothing changes. */
    method Remove(c: Component) returns (raised: bool)
      requires Valid()
      modifies this
      ensures Valid() && Repr == old(Repr)
      ensures raised <==> c !in old(children)
      ensures raised ==> children == old(children) && contents == old(contents)
      ensures !raised ==>
        var i := FirstIndex(old(children), c);
        && children == old(children)[..i] + old(children)[i + 1..]
        && contents == old(contents)[..i] + old(contents)[i + 1..]
        && FsSize(Tree()) == old(FsSize(Tree())) - FsSize(old(contents)[i])
    {
      if c !in children {
        return true;
      }
      var i := FirstIndex(children, c);
      SizeAfterRemove(contents, i);
      children := children[..i] + children[i + 1..];
      contents := contents[..i] + contents[i + 1..];
      forall j | 0 <= j < |children|
        ensures ChildValid(j)
      {
        if j < i {
          assert old(ChildValid(j));
        } else {
          assert old(ChildValid(j + 1));
        }
      }
      raised := false;
    }
  }

  const DocumentsTree := FsDir("Documents", [FsFile("document.txt", 100), FsFile("notes.txt", 50)])
  const VideosTree := FsDir("Videos", [FsFile("video.mp4", 1200)])
  const MediaTree := FsDir("Media", [FsFile("image.jpg", 250), VideosTree])

  /** Lines 55-79: the tree the client code builds, of 1600 KB, listed in
      eight lines. */
  method ClientTree() returns (size: int, lines: seq<string>)
    ensures size == 1600 && |lines| == 8
  {
    var root := new Directory("Root");
    var documents := Documents();
    var media := Media();
    root.Add(DirC(documents));
    root.Add(DirC(media));
    assert root.Tree() == FsDir("Root", [DocumentsTree, MediaTree]);
    ClientSizes();
    size := root.GetSize();
    lines := root.ShowDetails("");
    LinesPerNode(root.Tree(), "");
  }

  lemma ClientSizes()
    ensures FsSize(FsDir("Root", [DocumentsTree, MediaTree])) == 1600
    ensures FsCount(FsDir("Root", [DocumentsTree, MediaTree])) == 8
  {
    assert FsSize(DocumentsTree) == 150 by {
      assert SumSizes([FsFile("notes.txt", 50)]) == 50;
    }
    assert FsSize(VideosTree) == 1200 by {
      assert SumSizes([FsFile("video.mp4", 1200)]) == 1200;
    }
    assert FsSize(MediaTree) == 1450 by {
      assert SumSizes([VideosTree]) == 1200;
      var cs := [FsFile("image.jpg", 250), VideosTree];
      assert cs[1..] == [VideosTree];
      assert SumSizes(cs) == 250 + SumSizes([VideosTree]);
    }
    assert SumSizes([MediaTree]) == 1450;
    assert FsCount(DocumentsTree) == 3 by {
      assert SumCounts([FsFile("notes.txt", 50)]) == 1;
    }
    assert FsCount(VideosTree) == 2 by {
      assert SumCounts([FsFile("video.mp4", 1200)]) == 1;
    }
    assert FsCount(MediaTree) == 4 by {
      assert SumCounts([VideosTree]) == 2;
      var cs := [FsFile("image.jpg", 250), VideosTree];
      assert cs[1..] == [VideosTree];
      assert SumCounts(cs) == 1 + SumCounts([VideosTree]);
    }
    assert SumCounts([MediaTree]) == 4;
  }

  method Documents() returns (d: Directory)
    ensures d.Valid() && fresh(d.Repr) && d.Tree() == DocumentsTree
  {
    var file1 := new File("document.txt", 100);
    var file3 := new File("notes.txt", 50);
    d := new Directory("Documents");
    d.Add(FileC(file1));
    d.Add(FileC(file3));
  }

  method Media() returns (d: Directory)
    ensures d.Valid() && fresh(d.Repr) && d.Tree() == MediaTree
  {
    var file2 := new File("image.jpg", 250);
    var file4 := new File("video.mp4", 1200);
    var videos := new Directory("Videos");
    videos.Add(FileC(file4));
    assert videos.Tree() == VideosTree;
    d := new Directory("Media");
    d.Add(FileC(file2));
    d.Add(DirC(videos));
    assert d.contents == [FsFile("image.jpg", 250), VideosTree];
  }
}
