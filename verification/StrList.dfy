/**
 * The server's linked list of strings. Every node caches the length of the suffix it heads.
 * A `sll_link_t *` argument is passed by value and the new head returned.
 */
module StrList {

  class Node {
    var str: string
    var size: nat
    var next: Node?

    constructor (str: string, next: Node?, size: nat)
      ensures this.str == str && this.next == next && this.size == size
    {
      this.str, this.next, this.size := str, next, size;
    }
  }

  /**
   * The list at `list` holds `xs`, every node has the length of its own suffix in `size`, and
   * the nodes are distinct members of `repr`.
   */
  ghost predicate Holds(list: Node?, xs: seq<string>, repr: set<Node>)
    reads repr
    decreases |xs|
  {
    if list == null then xs == []
    else
      && list in repr
      && xs != []
      && list.str == xs[0]
      && list.size == |xs|
      && Holds(list.next, xs[1..], repr - {list})
  }

  lemma HoldsFrom(list: Node, xs: seq<string>, i: nat, repr: set<Node>)
    requires i <= |xs| && Holds(list, xs[i..], repr)
    ensures i < |xs| && list.str == xs[i] && Holds(list.next, xs[i + 1..], repr - {list})
  {
    assert xs[i..][1..] == xs[i + 1..];
  }

  /** Where an ordered insertion puts `x`: before the first element that is not below it. */
  function InsertOrd(ord: (string, string) -> int, xs: seq<string>, x: string): (r: seq<string>)
    ensures |r| == |xs| + 1
  {
    if xs != [] && ord(x, xs[0]) > 0 then [xs[0]] + InsertOrd(ord, xs[1..], x) else [x] + xs
  }

  method Size(list: Node?, ghost xs: seq<string>, ghost repr: set<Node>) returns (n: nat)
    requires Holds(list, xs, repr)
    ensures n == |xs|
  {
    n := if list == null then 0 else list.size;
  }

  method Push(list: Node?, str: string, ghost xs: seq<string>, ghost repr: set<Node>)
      returns (head: Node, ghost repr': set<Node>)
    requires Holds(list, xs, repr)
    ensures fresh(head) && repr' == repr + {head}
    ensures Holds(head, [str] + xs, repr')
  {
    if list == null {
      head := new Node(str, null, 1);
    } else {
      head := new Node(str, list, list.size + 1);
    }
    repr' := repr + {head};
    assert ([str] + xs)[1..] == xs && repr' - {head} == repr;
  }

  method Append(list: Node?, str: string, ghost xs: seq<string>, ghost repr: set<Node>)
      returns (head: Node, ghost repr': set<Node>)
    requires Holds(list, xs, repr)
    modifies repr
    ensures repr <= repr' && fresh(repr' - repr)
    ensures Holds(head, xs + [str], repr')
    decreases |xs|
  {
    if list == null {
      head := new Node(str, null, 1);
      repr' := repr + {head};
    } else if list.next == null {
      assert xs[1..] == [] && (xs + [str])[1..] == [str];
      var last := new Node(str, null, 1);
      list.next := last;
      list.size := list.size + 1;
      head, repr' := list, repr + {last};
    } else {
      list.size := list.size + 1;
      ghost var rest;
      list.next, rest := Append(list.next, str, xs[1..], repr - {list});
      head, repr' := list, rest + {list};
      assert (xs + [str])[1..] == xs[1..] + [str] && repr' - {list} == rest;
    }
  }

  method AppendOrd(list: Node?, str: string, ord: (string, string) -> int,
                   ghost xs: seq<string>, ghost repr: set<Node>)
      returns (head: Node, ghost repr': set<Node>)
    requires Holds(list, xs, repr)
    modifies repr
    ensures repr <= repr' && fresh(repr' - repr)
    ensures Holds(head, InsertOrd(ord, xs, str), repr')
    decreases |xs|
  {
    if list == null {
      head := new Node(str, null, 1);
      repr' := repr + {head};
      assert InsertOrd(ord, xs, str) == [str];
    } else if ord(str, list.str) > 0 {
      list.size := list.size + 1;
      ghost var rest;
      list.next, rest := AppendOrd(list.next, str, ord, xs[1..], repr - {list});
      head, repr' := list, rest + {list};
      assert InsertOrd(ord, xs, str)[1..] == InsertOrd(ord, xs[1..], str) && repr' - {list} == rest;
    } else {
      head, repr' := Push(list, str, xs, repr);
      assert InsertOrd(ord, xs, str) == [str] + xs;
    }
  }
}
