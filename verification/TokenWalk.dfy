/**
 The search `#[once]` makes through the tokens of its value type for one of the function's
 generic parameters: an explicit stack of token streams instead of recursion.
 */
module TokenWalk {
  import opened Basics

  /** `Other` stands for punctuation and literals. */
  datatype TokenTree = Ident(name: string) | Group(stream: seq<TokenTree>) | Other

  /** The token reached from `stream` by an index at each level of nesting. */
  function Resolve(stream: seq<TokenTree>, path: seq<nat>): Option<TokenTree> {
    if path == [] || path[0] >= |stream| then None
    else if |path| == 1 then Some(stream[path[0]])
    else
      match stream[path[0]]
      case Group(inner) => Resolve(inner, path[1..])
      case _ => None
  }

  /** `x` is in `params` and occurs as an identifier at some depth of `stream`. */
  ghost predicate Names(stream: seq<TokenTree>, params: set<string>, x: string) {
    x in params && exists path :: Resolve(stream, path) == Some(Ident(x))
  }

  /** Weight of a stream: every token and every stream counts one. */
  function Size(stream: seq<TokenTree>): nat {
    if stream == [] then 1 else TreeSize(stream[0]) + Size(stream[1..])
  }

  function TreeSize(t: TokenTree): nat {
    match t
    case Group(inner) => 1 + Size(inner)
    case _ => 1
  }

  function StackSize(stack: seq<seq<TokenTree>>): nat {
    if stack == [] then 0 else StackSize(stack[..|stack| - 1]) + Size(stack[|stack| - 1])
  }

  /** A stream names a parameter through its first token or through the rest. */
  lemma NamesFirstOrRest(stream: seq<TokenTree>, params: set<string>, x: string)
    requires stream != []
    ensures Names(stream, params, x) <==>
      || Names(stream[1..], params, x)
      || (stream[0] == Ident(x) && x in params)
      || (stream[0].Group? && Names(stream[0].stream, params, x))
  {
    if Names(stream, params, x) {
      var path :| Resolve(stream, path) == Some(Ident(x));
      if path[0] > 0 {
        var rest := [path[0] - 1] + path[1..];
        assert rest[1..] == path[1..];
        assert Resolve(stream[1..], rest) == Some(Ident(x));
      } else if |path| > 1 {
        assert Resolve(stream[0].stream, path[1..]) == Some(Ident(x));
      }
    }
    if Names(stream[1..], params, x) {
      var path :| Resolve(stream[1..], path) == Some(Ident(x));
      var more := [path[0] + 1] + path[1..];
      assert more[1..] == path[1..];
      assert Resolve(stream, more) == Some(Ident(x));
    }
    if stream[0] == Ident(x) && x in params {
      assert Resolve(stream, [0]) == Some(stream[0]);
    }
    if stream[0].Group? && Names(stream[0].stream, params, x) {
      var path :| Resolve(stream[0].stream, path) == Some(Ident(x));
      assert ([0] + path)[1..] == path;
      assert Resolve(stream, [0] + path) == Some(Ident(x));
    }
  }

  ghost predicate StackNames(stack: seq<seq<TokenTree>>, params: set<string>, x: string) {
    exists j :: 0 <= j < |stack| && Names(stack[j], params, x)
  }

  lemma StackPush(stack: seq<seq<TokenTree>>, s: seq<TokenTree>, params: set<string>)
    ensures StackSize(stack + [s]) == StackSize(stack) + Size(s)
    ensures forall x :: StackNames(stack + [s], params, x) <==> StackNames(stack, params, x) || Names(s, params, x)
  {
    var all := stack + [s];
    assert all[..|all| - 1] == stack;
    forall x ensures StackNames(all, params, x) <==> StackNames(stack, params, x) || Names(s, params, x) {
      if StackNames(stack, params, x) {
        var j :| 0 <= j < |stack| && Names(stack[j], params, x);
        assert all[j] == stack[j];
      }
      if Names(s, params, x) {
        assert all[|stack|] == s;
      }
    }
  }

  /**
   The walk terminates, and reports a parameter exactly when some identifier at some depth
   of the value type is one; what it reports is such an identifier.
   */
  method FindParam(value: seq<TokenTree>, params: set<string>) returns (found: Option<string>)
    ensures found.Some? ==> Names(value, params, found.value)
    ensures found.None? ==> forall x :: !Names(value, params, x)
  {
    if params == {} {
      return None;
    }
    var stack := [value];
    StackPush([], value, params);
    assert [] + [value] == [value];
    while stack != []
      invariant forall x :: StackNames(stack, params, x) <==> Names(value, params, x)
      decreases StackSize(stack)
    {
      var n := |stack| - 1;
      var stream := stack[n];
      ghost var before := stack;
      assert stack == stack[..n] + [stream];
      StackPush(stack[..n], stream, params);
      stack := stack[..n];
      assert stream[0..] == stream;
      for i := 0 to |stream|
        invariant forall x ::
          StackNames(stack, params, x) || Names(stream[i..], params, x) <==> Names(value, params, x)
        invariant StackSize(stack) + Size(stream[i..]) <= StackSize(before)
      {
        forall x {
          NamesFirstOrRest(stream[i..], params, x);
        }
        assert stream[i..][1..] == stream[i + 1..];
        match stream[i] {
          case Ident(s) =>
            if s in params {
              return Some(s);
            }
          case Group(inner) =>
            StackPush(stack, inner, params);
            stack := stack + [inner];
          case Other =>
        }
      }
      assert stream[|stream|..] == [];
    }
    return None;
  }
}
