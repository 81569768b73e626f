/** Lexical normalisation of paths, and when a path leaves the directory it starts from. */
module Paths {
  import opened Base

  datatype Component = RootDir | CurDir | ParentDir | Normal(name: Bytes)

  /** Where a path leads: `ups` directories above its start and then down along `names`; an absolute path
      starts at the root, which is its own parent. */
  datatype Place = Place(absolute: bool, ups: nat, names: seq<Bytes>)

  function Step(at: Place, c: Component): Place {
    match c
    case CurDir => at
    case Normal(name) => at.(names := at.names + [name])
    case ParentDir =>
      if at.names != [] then at.(names := at.names[..|at.names| - 1])
      else if at.absolute then at
      else at.(ups := at.ups + 1)
    case RootDir => Place(true, 0, [])
  }

  function PlaceOf(path: seq<Component>): Place {
    if path == [] then Place(false, 0, []) else Step(PlaceOf(path[..|path| - 1]), path[|path| - 1])
  }

  ghost function Render(at: Place): seq<Component> {
    (if at.absolute then [RootDir] else []) + seq(at.ups, _ => ParentDir)
    + seq(|at.names|, i requires 0 <= i < |at.names| => Normal(at.names[i]))
  }

  /** Only the first component of a path can be the root. */
  predicate WellFormed(path: seq<Component>) { forall i :: 0 < i < |path| ==> path[i] != RootDir }

  lemma RenderStep(at: Place, c: Component)
    requires (at.absolute ==> at.ups == 0) && c != RootDir
    ensures var stack := Render(at); var next := Step(at, c);
      && (next.absolute ==> next.ups == 0)
      && (c.CurDir? ==> Render(next) == stack)
      && (c.Normal? ==> Render(next) == stack + [c])
      && (c.ParentDir? && stack != [] && stack[|stack| - 1].Normal? ==> Render(next) == stack[..|stack| - 1])
      && (c.ParentDir? && stack != [] && stack[|stack| - 1].RootDir? ==> Render(next) == stack)
      && (c.ParentDir? && (stack == [] || stack[|stack| - 1].ParentDir?) ==> Render(next) == stack + [ParentDir])
      && (stack != [] ==> !stack[|stack| - 1].CurDir?)
  {
  }

  /** Removes `.` and folds `..` with a stack; the result names the place where the path leads. */
  method NormalizeLexical(path: seq<Component>) returns (out: seq<Component>)
    requires WellFormed(path)
    ensures var at := PlaceOf(path); out == if Render(at) == [] then [CurDir] else Render(at)
  {
    var stack: seq<Component> := [];
    for n := 0 to |path|
      invariant PlaceOf(path[..n]).absolute ==> PlaceOf(path[..n]).ups == 0
      invariant stack == Render(PlaceOf(path[..n]))
    {
      assert path[..n + 1][..n] == path[..n];
      ghost var at := PlaceOf(path[..n]);
      if path[n] != RootDir {
        RenderStep(at, path[n]);
      }
      match path[n] {
        case CurDir =>
        case ParentDir =>
          if stack != [] && stack[|stack| - 1].Normal? {
            stack := stack[..|stack| - 1];
          } else if stack == [] || !stack[|stack| - 1].RootDir? {
            stack := stack + [ParentDir];
          }
        case RootDir =>
          assert path[..0] == [];
          stack := stack + [RootDir];
        case Normal(_) =>
          stack := stack + [path[n]];
      }
    }
    assert path[..|path|] == path;
    out := if stack == [] then [CurDir] else stack;
  }

  // ----- Leaving the starting directory

  predicate Relative(path: seq<Component>) { forall c :: c in path ==> c != RootDir }

  type RelativePath = path: seq<Component> | Relative(path)

  /** How far below the start a path leads; negative means above. */
  ghost function Level(path: seq<Component>): int {
    if path == [] then 0 else
      Level(path[..|path| - 1]) + match path[|path| - 1] case Normal(_) => 1 case ParentDir => -1 case _ => 0
  }

  lemma {:induction false} LevelOfPlace(path: seq<Component>)
    requires Relative(path)
    ensures var at := PlaceOf(path); !at.absolute && Level(path) == |at.names| - at.ups
  {
    if path != [] {
      var rest := path[..|path| - 1];
      assert forall c :: c in rest ==> c in path;
      assert path[|path| - 1] in path;
      LevelOfPlace(rest);
    }
  }

  /** A relative path is normalised to one that starts with `..` exactly when some prefix of it leads above
      the start; the number of `..` is the greatest height reached. */
  lemma {:induction false} EscapesAbove(path: seq<Component>)
    requires Relative(path)
    ensures forall n :: 0 <= n <= |path| ==> Level(path[..n]) + PlaceOf(path).ups >= 0
    ensures exists n :: 0 <= n <= |path| && Level(path[..n]) + PlaceOf(path).ups == 0
  {
    if path == [] {
      assert path[..0] == [];
    } else {
      hide Level;
      var last := |path| - 1;
      var rest := path[..last];
      assert forall c :: c in rest ==> c in path;
      EscapesAbove(rest);
      LevelOfPlace(rest);
      LevelOfPlace(path);
      assert path[last] in path;
      assert path[..|path|] == path;
      forall n | 0 <= n <= last ensures path[..n] == rest[..n] {
      }
      var n :| 0 <= n <= |rest| && Level(rest[..n]) + PlaceOf(rest).ups == 0;
      if PlaceOf(path).ups == PlaceOf(rest).ups {
        assert Level(path[..n]) + PlaceOf(path).ups == 0;
      } else {
        assert Level(path[..|path|]) + PlaceOf(path).ups == 0;
      }
    }
  }

  /** The escape test on the normalised path. */
  predicate Escapes(out: seq<Component>) { out != [] && out[0] == ParentDir }

  lemma EscapeTest(path: seq<Component>, out: seq<Component>)
    requires Relative(path) && out == if Render(PlaceOf(path)) == [] then [CurDir] else Render(PlaceOf(path))
    ensures Escapes(out) <==> exists n :: 0 <= n <= |path| && Level(path[..n]) < 0
  {
    hide Level, PlaceOf;
    LevelOfPlace(path);
    EscapesAbove(path);
    FirstRendered(PlaceOf(path));
  }

  lemma FirstRendered(at: Place)
    requires !at.absolute
    ensures Render(at) != [] && Render(at)[0] == ParentDir <==> at.ups > 0
  {
    if at.ups == 0 && at.names != [] {
      assert Render(at)[0] == Normal(at.names[0]);
    }
  }

  /** The names along a normalised path that does not escape. */
  function NamesAlong(out: seq<Component>): seq<Bytes> {
    if out == [CurDir] then [] else seq(|out|, i requires 0 <= i < |out| => if out[i].Normal? then out[i].name else [])
  }

  lemma NamesOfPlace(at: Place)
    requires !at.absolute && at.ups == 0
    ensures NamesAlong(if Render(at) == [] then [CurDir] else Render(at)) == at.names
  {
    var out := Render(at);
    assert |out| == |at.names| && forall i :: 0 <= i < |at.names| ==> out[i] == Normal(at.names[i]);
    if out != [] {
      assert out[0] != CurDir;
      assert NamesAlong(out) == at.names;
    }
  }
}
