/**
 The builder as it runs: a counter and a summary updated in place, chains built by a loop over the
 reversed specifications, and the loop endpoint's splice into an existing chain.
 */
module FlowBuilder {
  import opened Wrappers
  import opened FlowTree
  import opened FlowCompiler

  class Builder {
    const resolve: Resolver
    var counter: nat
    var info: seq<StepInfo>

    constructor (resolve: Resolver)
      ensures this.resolve == resolve && counter == FIRST_STEP && info == []
    {
      this.resolve := resolve;
      counter := FIRST_STEP;
      info := [];
    }

    method BuildStep(s: Spec, next: Tree) returns (r: Result<Tree, BuildError>)
      modifies this
      ensures match FlowCompiler.BuildStep(s, old(counter), next, resolve)
              case Err(e) => r == Err(e)
              case Ok(b) => r == Ok(b.tree) && counter == b.counter && info == old(info) + b.info
      decreases s, 0
    {
      var name := StepName(counter);
      counter := counter + 1;
      match s {
        case PieceSpec(request) =>
          if request.piece == "" { return Err(PieceRequired(name)); }
          match resolve(request) {
            case Err(e) => return Err(Unresolved(e));
            case Ok(p) =>
              info := info + [StepInfo(name, Piece, 0)];
              return Ok(Some(PieceNode(name, p, next)));
          }
        case CodeSpec(_, _) =>
          info := info + [StepInfo(name, Code, 0)];
          return Ok(Some(CodeNode(name, s, next)));
        case RouterSpec(bs) =>
          info := info + [StepInfo(name, Router, |bs|)];
          var children := BuildChildren(bs);
          match children {
            case Err(e) => return Err(e);
            case Ok(cs) => return Ok(Some(RouterNode(name, CompileBranches(bs), cs, next)));
          }
        case LoopSpec(_, actions) =>
          info := info + [StepInfo(name, LoopOnItems, 0)];
          var body := BuildChain(actions);
          match body {
            case Err(e) => return Err(e);
            case Ok(t) => return Ok(Some(LoopNode(name, ItemsOf(s), t, next)));
          }
        case UnknownSpec(t) => return Err(UnknownType(t));
      }
    }

    method BuildChildren(bs: seq<BranchSpec>) returns (r: Result<seq<Tree>, BuildError>)
      modifies this
      ensures match FlowCompiler.BuildChildren(bs, old(counter), resolve)
              case Err(e) => r == Err(e)
              case Ok(b) => r == Ok(b.children) && counter == b.counter && info == old(info) + b.info
      decreases bs, 2
    {
      var children: seq<Tree> := [];
      ghost var whole := FlowCompiler.BuildChildren(bs, counter, resolve);
      ghost var added: seq<StepInfo> := [];
      var j := 0;
      assert bs[0..] == bs;
      AfterNothing(whole);
      while j < |bs|
        invariant 0 <= j <= |bs|
        invariant info == old(info) + added
        invariant whole == After(children, added, FlowCompiler.BuildChildren(bs[j..], counter, resolve))
      {
        assert bs[j..][1..] == bs[j + 1..];
        ghost var first := FlowCompiler.BuildChain(bs[j].actions, counter, resolve);
        var child := BuildChain(bs[j].actions);
        match child {
          case Err(e) => return Err(e);
          case Ok(t) =>
            AfterOne(children, added, t, first.value.info, FlowCompiler.BuildChildren(bs[j + 1..], counter, resolve));
            children := children + [t];
            added := added + first.value.info;
            j := j + 1;
        }
      }
      assert bs[j..] == [] && children + [] == children && added + [] == added;
      return Ok(children);
    }

    method BuildChain(specs: seq<Spec>) returns (r: Result<Tree, BuildError>)
      modifies this
      ensures match FlowCompiler.BuildChain(specs, old(counter), resolve)
              case Err(e) => r == Err(e)
              case Ok(b) => r == Ok(b.tree) && counter == b.counter && info == old(info) + b.info
      decreases specs, 1
    {
      var chain: Tree := None;
      ghost var added: seq<StepInfo> := [];
      var k := |specs|;
      while k > 0
        invariant 0 <= k <= |specs|
        invariant FlowCompiler.BuildChain(specs[k..], old(counter), resolve) == Ok(Built(chain, counter, added))
        invariant info == old(info) + added
      {
        k := k - 1;
        assert specs[k..][1..] == specs[k + 1..];
        ghost var whole := FlowCompiler.BuildChain(specs[k..], old(counter), resolve);
        var step := BuildStep(specs[k], chain);
        match step {
          case Err(e) =>
            SuffixError(specs, k, old(counter), resolve);
            return Err(e);
          case Ok(t) =>
            chain := t;
            added := whole.value.info;
        }
      }
      assert specs[0..] == specs;
      return Ok(chain);
    }
  }

  /** The outcome for all branches, given what the first ones gave and the outcome for the others. */
  function After(children: seq<Tree>, info: seq<StepInfo>, rest: Result<BuiltChildren, BuildError>)
    : Result<BuiltChildren, BuildError>
  {
    match rest
    case Err(e) => Err(e)
    case Ok(b) => Ok(BuiltChildren(children + b.children, b.counter, info + b.info))
  }

  lemma AfterNothing(rest: Result<BuiltChildren, BuildError>)
    ensures After([], [], rest) == rest
  {
    if rest.Ok? {
      assert [] + rest.value.children == rest.value.children && [] + rest.value.info == rest.value.info;
    }
  }

  lemma AfterOne(children: seq<Tree>, info: seq<StepInfo>, t: Tree, i: seq<StepInfo>,
                 rest: Result<BuiltChildren, BuildError>)
    ensures After(children, info, After([t], i, rest)) == After(children + [t], info + i, rest)
  {
    if rest.Ok? {
      assert children + ([t] + rest.value.children) == children + [t] + rest.value.children;
      assert info + (i + rest.value.info) == info + i + rest.value.info;
    }
  }

  /** What stops the tail of a chain stops the chain. */
  lemma {:induction false} SuffixError(specs: seq<Spec>, k: nat, c: nat, resolve: Resolver)
    requires k <= |specs| && BuildChain(specs[k..], c, resolve).Err?
    ensures BuildChain(specs, c, resolve) == BuildChain(specs[k..], c, resolve)
  {
    if k > 0 {
      assert specs[1..][k - 1..] == specs[k..];
      SuffixError(specs[1..], k - 1, c, resolve);
    } else {
      assert specs[0..] == specs;
    }
  }
}
