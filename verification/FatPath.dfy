/** fat12_set_dir of include/fat12.h: the current path, edited in place as a string, against
    a stack of directories. */
module FatPath {
  import opened CString

  const ROOT := 19  // FAT_ROOT_REGION_START, which curr_dir holds at the root
  const PATH_SIZE := 50
  const SLASH := '/'

  /** The path up to its last slash. */
  function Parent(path: seq<char>): seq<char>
    requires SLASH in path
  {
    SlashInReverse(path);
    path[..|path| - 1 - Find(Reversed(path), SLASH)]
  }

  lemma SlashInReverse(path: seq<char>)
    ensures Find(Reversed(path), SLASH) < |path| <==> SLASH in path
    ensures SLASH in Reversed(path) <==> SLASH in path
  {
    var r := Reversed(path);
    forall k | 0 <= k < |path| ensures path[k] == r[|path| - 1 - k] {
    }
    if SLASH in path {
      var k :| 0 <= k < |path| && path[k] == SLASH;
      assert r[|path| - 1 - k] == SLASH;
    }
  }

  lemma ParentOfJoined(a: seq<char>, b: seq<char>)
    requires SLASH !in b
    ensures Parent(a + [SLASH] + b) == a
  {
    var path := a + [SLASH] + b;
    var r := Reversed(path);
    assert path[|a|] == SLASH;
    forall k | 0 <= k < |b| ensures r[k] != SLASH {
      assert r[k] == path[|path| - 1 - k] == b[|b| - 1 - k];
    }
    assert r[|b|] == path[|a|];
    SlashInReverse(path);
    assert Find(r, SLASH) == |b|;
  }

  /** What fat12_set_dir leaves in curr_dir and curr_path. */
  function NewDir(dir: int, newDir: int): int {
    if dir != ROOT && newDir == 0 then ROOT else newDir
  }

  function NewPath(path: seq<char>, dir: int, newDir: int, action: seq<char>): seq<char>
    requires SLASH in path
  {
    if dir == ROOT then [SLASH] + action
    else if action == "." then path
    else if action == ".." then if NewDir(dir, newDir) == ROOT then [SLASH] else Parent(path)
    else path + [SLASH] + action
  }

  class CurrentDir {
    const path: array<char>
    var dir: int

    ghost predicate Valid() {
      path.Length == PATH_SIZE
    }

    /** The case "..": reverse, cut at the first slash, reverse the rest, move it down. */
    method CutLast(ghost text: seq<char>)
      requires Valid() && Holds(path[..], 0, text) && SLASH in text
      modifies path
      ensures Holds(path[..], 0, Parent(text))
    {
      hide Holds, Reversed, Find, FindAny, Stored, Parent;
      var delims := new char[2] [SLASH, NUL];
      OneChar(delims[..], SLASH);
      ReverseText(path[..], 0, text);
      Reverse(path, 0, text);
      ghost var m := path[..];
      SlashInReverse(text);
      assert Holds(m, 0, Reversed(text));
      FindOne(Reversed(text), SLASH);
      var more, next := StrSep(path, 0, delims, [SLASH], Reversed(text));
      CutHolds(m, text);
      ghost var rest := Reversed(Parent(text));
      ReverseText(path[..], next, rest);
      ReversedPlain(Parent(text));
      Reverse(path, next, rest);
      CopyDown(path[..], next, Parent(text));
      StrCpy(path, 0, path, next, Parent(text));
    }

    method AssignRoot()
      requires Valid()
      modifies path
      ensures Holds(path[..], 0, [SLASH])
    {
      var slash := new char[2] [SLASH, NUL];
      OneChar(slash[..], SLASH);
      StrCpy(path, 0, slash, 0, [SLASH]);
      StoredHolds(old(path[..]), 0, [SLASH]);
    }

    method AppendText(s: array<char>, ghost text: seq<char>, ghost u: seq<char>)
      requires Valid() && s != path && Holds(path[..], 0, text) && Holds(s[..], 0, u) && |text| + |u| < PATH_SIZE
      modifies path
      ensures Holds(path[..], 0, text + u)
    {
      StrCat(path, s, 0, text, u);
      StoredHolds(old(path[..]), 0, text + u);
    }

    method SetDir(newDir0: int, action: array<char>, ghost text: seq<char>, ghost act: seq<char>)
      requires Valid() && action != path && Holds(path[..], 0, text) && Holds(action[..], 0, act) && SLASH in text
      requires |NewPath(text, dir, newDir0, act)| < PATH_SIZE
      modifies path, this`dir
      ensures Holds(path[..], 0, NewPath(text, old(dir), newDir0, act)) && dir == NewDir(old(dir), newDir0)
    {
      hide Holds, Parent;
      var newDir := newDir0;
      if dir == ROOT {
        dir := newDir;
        AssignRoot();
        AppendText(action, [SLASH], act);
      } else {
        if newDir == 0 {
          newDir := ROOT;
        }
        dir := newDir;
        var dot := new char[2] ['.', NUL];
        var dots := new char[3] ['.', '.', NUL];
        OneChar(dot[..], '.');
        TwoDots(dots[..]);
        var isDot := StrCmp(action, 0, dot, 0, act, ".");
        var isDots := StrCmp(action, 0, dots, 0, act, "..");
        if isDot == 0 {
        } else if isDots == 0 {
          CutLast(text);
          if dir == ROOT {
            AssignRoot();
          }
        } else {
          var slash := new char[2] [SLASH, NUL];
          OneChar(slash[..], SLASH);
          AppendText(slash, text, [SLASH]);
          AppendText(action, text + [SLASH], act);
        }
      }
    }
  }

  lemma TwoDots(m: seq<char>)
    requires m == ['.', '.', NUL]
    ensures Holds(m, 0, "..")
  {
  }

  lemma ReverseText(m: seq<char>, p: nat, t: seq<char>)
    requires Holds(m, p, t)
    ensures p + |t| < |m| && Holds(Stored(m, p, Reversed(t)), p, Reversed(t))
    ensures Reversed(Reversed(t)) == t
  {
    ReversedPlain(t);
    StoredHolds(m, p, Reversed(t));
  }

  /** After the cut the rest of the reversed path is the reversed parent. */
  lemma CutHolds(m: seq<char>, text: seq<char>)
    requires SLASH in text && Holds(m, 0, Reversed(text))
    ensures var k := Find(Reversed(text), SLASH);
            k < |text| < |m| && Holds(m[k := NUL], k + 1, Reversed(Parent(text)))
  {
    hide Reversed, Find;
    SlashInReverse(text);
    var k, r, q := Find(Reversed(text), SLASH), Reversed(text), Reversed(Parent(text));
    forall j | 0 <= j < |q| ensures q[j] == r[k + 1 + j] {
    }
  }

  lemma CopyDown(m: seq<char>, p: nat, t: seq<char>)
    requires Holds(m, p, t)
    ensures |t| < |m| && Holds(Stored(m, 0, t), 0, t)
  {
    StoredHolds(m, 0, t);
  }

  // ---------------------------------------------------------------- the stack of directories

  /** A directory below the root: its name in its parent, and the cluster it starts at. */
  datatype Dir = Dir(name: seq<char>, cluster: int)

  /** Into a directory, to the parent, and to the directory itself. */
  datatype Cd = Into(dir: Dir) | Up | Stay

  function PathOf(stack: seq<Dir>): (r: seq<char>)
    ensures SLASH in r
  {
    if stack == [] then [SLASH] else Names(stack)
  }

  function Names(stack: seq<Dir>): (r: seq<char>)
    ensures stack != [] ==> SLASH in r
  {
    if stack == [] then [] else Names(stack[..|stack| - 1]) + [SLASH] + stack[|stack| - 1].name
  }

  function DirOf(stack: seq<Dir>): int {
    if stack == [] then ROOT else stack[|stack| - 1].cluster
  }

  predicate NameOk(name: seq<char>) {
    name != [] && SLASH !in name && name != "." && name != ".."
  }

  predicate StackOk(stack: seq<Dir>) {
    forall i :: 0 <= i < |stack| ==> NameOk(stack[i].name) && stack[i].cluster != ROOT && stack[i].cluster != 0
  }

  predicate CdOk(stack: seq<Dir>, cd: Cd) {
    match cd
    case Into(d) => NameOk(d.name) && d.cluster != ROOT && d.cluster != 0
    case _ => stack != []
  }

  function After(stack: seq<Dir>, cd: Cd): seq<Dir>
    requires CdOk(stack, cd)
  {
    match cd
    case Into(d) => stack + [d]
    case Up => stack[..|stack| - 1]
    case Stay => stack
  }

  /** What fat12_cd passes on: the start cluster of the entry it found, which is 0 for the
      ".." of a directory directly below the root, and the name that was typed. */
  function Cluster(stack: seq<Dir>, cd: Cd): int
    requires CdOk(stack, cd)
  {
    match cd
    case Into(d) => d.cluster
    case Up => if |stack| == 1 then 0 else stack[|stack| - 2].cluster
    case Stay => stack[|stack| - 1].cluster
  }

  function Typed(cd: Cd): seq<char> {
    match cd
    case Into(d) => d.name
    case Up => ".."
    case Stay => "."
  }

  /** The string and the cluster number after a step are those of the stack after it. */
  lemma CdRefines(stack: seq<Dir>, cd: Cd)
    requires StackOk(stack) && CdOk(stack, cd)
    ensures StackOk(After(stack, cd))
    ensures NewPath(PathOf(stack), DirOf(stack), Cluster(stack, cd), Typed(cd)) == PathOf(After(stack, cd))
    ensures NewDir(DirOf(stack), Cluster(stack, cd)) == DirOf(After(stack, cd))
  {
    match cd
    case Into(d) => IntoRefines(stack, d);
    case Up => UpRefines(stack);
    case Stay => StayRefines(stack);
  }

  lemma NamesOfPush(stack: seq<Dir>, d: Dir)
    ensures Names(stack + [d]) == Names(stack) + [SLASH] + d.name
    ensures stack == [] ==> Names(stack + [d]) == [SLASH] + d.name
  {
    assert (stack + [d])[..|stack|] == stack;
    assert [] + [SLASH] == [SLASH];
  }

  lemma IntoRefines(stack: seq<Dir>, d: Dir)
    requires StackOk(stack) && CdOk(stack, Into(d))
    ensures StackOk(stack + [d])
    ensures NewPath(PathOf(stack), DirOf(stack), d.cluster, d.name) == PathOf(stack + [d])
    ensures NewDir(DirOf(stack), d.cluster) == DirOf(stack + [d])
  {
    hide Names, Parent;
    NamesOfPush(stack, d);
  }

  lemma UpRefines(stack: seq<Dir>)
    requires StackOk(stack) && stack != []
    ensures var up := stack[..|stack| - 1];
            && StackOk(up)
            && NewPath(PathOf(stack), DirOf(stack), Cluster(stack, Up), "..") == PathOf(up)
            && NewDir(DirOf(stack), Cluster(stack, Up)) == DirOf(up)
  {
    hide Names, Parent;
    var up, d := stack[..|stack| - 1], stack[|stack| - 1];
    assert up + [d] == stack;
    NamesOfPush(up, d);
    ParentOfJoined(Names(up), d.name);
  }

  lemma StayRefines(stack: seq<Dir>)
    requires StackOk(stack) && stack != []
    ensures NewPath(PathOf(stack), DirOf(stack), Cluster(stack, Stay), ".") == PathOf(stack)
    ensures NewDir(DirOf(stack), Cluster(stack, Stay)) == DirOf(stack)
  {
    hide Names, Parent;
  }

  /** The string and the number stand for the stack, and 19 for the empty one. */
  ghost predicate InStep(stack: seq<Dir>, path: seq<char>, dir: int) {
    path == PathOf(stack) && dir == DirOf(stack) && (dir == ROOT <==> stack == [])
  }

  /** In step now, and after any valid step that follows. */
  ghost predicate StaysInStep(stack: seq<Dir>, path: seq<char>, dir: int) {
    && InStep(stack, path, dir)
    && forall cd | CdOk(stack, cd) ::
         InStep(After(stack, cd), NewPath(path, dir, Cluster(stack, cd), Typed(cd)), NewDir(dir, Cluster(stack, cd)))
  }

  /** Entering a directory keeps the path in step, then and after any further step, exactly
      when the directory starts neither at cluster 19 nor at cluster 0. */
  lemma IntoExact(stack: seq<Dir>, d: Dir)
    requires StackOk(stack) && NameOk(d.name)
    ensures StaysInStep(stack + [d], NewPath(PathOf(stack), DirOf(stack), d.cluster, d.name), NewDir(DirOf(stack), d.cluster))
            <==> d.cluster != ROOT && d.cluster != 0
  {
    hide Names, Parent, PathOf;
    var s, path, dir :=
      stack + [d], NewPath(PathOf(stack), DirOf(stack), d.cluster, d.name), NewDir(DirOf(stack), d.cluster);
    if d.cluster != ROOT && d.cluster != 0 {
      IntoRefines(stack, d);
      forall cd | CdOk(s, cd)
        ensures InStep(After(s, cd), NewPath(path, dir, Cluster(s, cd), Typed(cd)), NewDir(dir, Cluster(s, cd)))
      {
        CdRefines(s, cd);
      }
    } else {
      assert CdOk(s, Stay);
      assert !InStep(s, path, dir) || NewDir(dir, Cluster(s, Stay)) == ROOT;
    }
  }

  /** At the root "." and ".." lead to a path that no stack of directories has, whatever
      entry they find there. */
  lemma DotsAtRoot(start: int, action: seq<char>, stack: seq<Dir>)
    requires action == "." || action == ".."
    requires StackOk(stack)
    ensures NewPath([SLASH], ROOT, start, action) == [SLASH] + action != PathOf(stack)
  {
    if stack != [] {
      var up, d := stack[..|stack| - 1], stack[|stack| - 1];
      var path := PathOf(stack);
      assert path == Names(up) + [SLASH] + d.name;
      if up != [] {
        assert |Names(up)| >= 2 by { NamesLong(up); }
      } else {
        assert path[1..] == d.name;
      }
    }
  }

  lemma NamesLong(stack: seq<Dir>)
    requires StackOk(stack) && stack != []
    ensures |Names(stack)| >= 2
  {
    assert |stack[|stack| - 1].name| >= 1;
  }

  /** "." found at the root with start cluster 0 makes curr_dir 0; once more, and curr_dir is
      19 again while the path is still "/.". */
  lemma DotTwiceAtRoot()
    ensures var path, dir := NewPath([SLASH], ROOT, 0, "."), NewDir(ROOT, 0);
            && path == "/." && dir == 0
            && NewPath(path, dir, 0, ".") == "/." && NewDir(dir, 0) == ROOT
  {
  }

  /** A directory that starts at cluster 19 is taken for the root: the next step down loses
      its name. */
  lemma Cluster19IsLost(d: Dir, e: Dir)
    requires NameOk(d.name) && NameOk(e.name) && d.cluster == ROOT
    ensures var dir := NewDir(ROOT, d.cluster);
            var path := NewPath([SLASH], ROOT, d.cluster, d.name);
            NewPath(path, dir, e.cluster, e.name) == [SLASH] + e.name != PathOf([d, e])
  {
    NamesOfPush([], d);
    NamesOfPush([d], e);
    assert [] + [d] == [d] && [d] + [e] == [d, e];
    assert PathOf([d, e])[0] == SLASH && |PathOf([d, e])| == 2 + |d.name| + |e.name|;
  }

  ghost predicate Walk(stacks: seq<seq<Dir>>, cds: seq<Cd>) {
    && |stacks| == |cds| + 1 && stacks[0] == []
    && forall i :: 0 <= i < |cds| ==> CdOk(stacks[i], cds[i]) && stacks[i+1] == After(stacks[i], cds[i])
  }

  /** paths and dirs are what the code goes through when it is given those steps. */
  ghost predicate Trace(paths: seq<seq<char>>, dirs: seq<int>, stacks: seq<seq<Dir>>, cds: seq<Cd>)
    requires Walk(stacks, cds)
  {
    && |paths| == |dirs| == |stacks| && paths[0] == [SLASH] && dirs[0] == ROOT
    && forall i :: 0 <= i < |cds| ==>
         && CdOk(stacks[i], cds[i])
         && SLASH in paths[i]
         && paths[i+1] == NewPath(paths[i], dirs[i], Cluster(stacks[i], cds[i]), Typed(cds[i]))
         && dirs[i+1] == NewDir(dirs[i], Cluster(stacks[i], cds[i]))
  }

  /** Over every sequence of valid steps the current path is the names of the stack joined by
      slashes, and curr_dir is 19 exactly at the root. */
  lemma {:induction false} PathIsStack(paths: seq<seq<char>>, dirs: seq<int>, stacks: seq<seq<Dir>>, cds: seq<Cd>, n: nat)
    requires Walk(stacks, cds) && Trace(paths, dirs, stacks, cds) && n < |stacks|
    ensures StackOk(stacks[n]) && paths[n] == PathOf(stacks[n]) && dirs[n] == DirOf(stacks[n])
    ensures dirs[n] == ROOT <==> stacks[n] == []
  {
    if n > 0 {
      PathIsStack(paths, dirs, stacks, cds, n - 1);
      CdRefines(stacks[n-1], cds[n-1]);
      assert stacks[n-1+1] == After(stacks[n-1], cds[n-1]);
      assert paths[n-1+1] == PathOf(stacks[n-1+1]);
    }
  }
}
