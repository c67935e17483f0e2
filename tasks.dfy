/**
 * The task node the scanner builds: its value (`Node`), the object the scanner
 * fills in while it parses one task (`Task`, with the fluent mutators), and the
 * read-only views the node offers (`ToString`, `OverloadsFor`).
 */
module Tasks {
  import opened Options
  import opened Text

  /**
   * The state of a task. `closures.opened`/`closures.closed` and the two marker
   * flags are flattened into booleans, `bounds[0]`/`bounds[1]` become `start` and
   * `end` (absent until set), and `fields`, `inside`, `from` and `parentId` are
   * `None` where the source holds `null`. Ids are numbers drawn from a counter.
   */
  datatype Node = Node(
    id: nat,
    name: string,
    negated: bool,
    handled: bool,
    isOpened: bool,
    isClosed: bool,
    fields: Option<seq<string>>,
    inside: Option<string>,
    lines: seq<int>,
    start: Option<int>,
    end: Option<int>,
    from: Option<nat>,
    parentId: Option<nat>,
    path: seq<string>,
    overloads: seq<Node>)
  {
    /** The `isNegated` getter. */
    predicate IsNegated() { negated }

    /** The `isHandled` getter. */
    predicate IsHandled() { handled }
  }

  /** A task as it is constructed: no name yet, every flag false, nothing set. */
  function Blank(id: nat): Node {
    Node(id, "", false, false, false, false, None, None, [], None, None, None, None, [], [])
  }

  /** The prefix marker `toString` prints: `!` when negated, else `*` when handled. */
  function Marker(n: Node): (m: string)
    ensures m == "!" <==> n.negated
    ensures m == "*" <==> !n.negated && n.handled
    ensures m == "" <==> !n.negated && !n.handled
  {
    if !n.negated && !n.handled then "" else if n.negated then "!" else "*"
  }

  /**
   * The `toString` getter, with the separator it reads from the lexer passed in:
   * `#<marker>(<name>)` when there are no fields at all, and otherwise
   * `#<marker>(<name><separator><fields joined by " | ">)`, even for an empty
   * field list.
   */
  function ToString(n: Node, separator: char): string {
    if n.fields.None? then "#" + Marker(n) + "(" + n.name + ")"
    else "#" + Marker(n) + "(" + n.name + [separator] + Join(n.fields.value, " | ") + ")"
  }

  /** `getOverloadsFor(cb)`: the direct overloads `keep` accepts, in their order. */
  function OverloadsFor(n: Node, keep: Node -> bool): (r: seq<Node>)
    ensures forall x :: x in r <==> x in n.overloads && keep(x)
    ensures |r| <= |n.overloads|
  {
    Filter(n.overloads, keep)
  }

  function Filter(s: seq<Node>, keep: Node -> bool): (r: seq<Node>)
    ensures forall x :: x in r <==> x in s && keep(x)
    ensures |r| <= |s|
  {
    if s == [] then []
    else if keep(s[0]) then [s[0]] + Filter(s[1..], keep)
    else Filter(s[1..], keep)
  }

  /**
   * `filter` keeps the order and the repeats of what it accepts: nothing comes
   * from nothing, and one more element at the end adds that element at the end
   * exactly when it is accepted.
   */
  lemma {:induction false} FilterSnoc(s: seq<Node>, x: Node, keep: Node -> bool)
    ensures Filter([], keep) == []
    ensures Filter(s + [x], keep) == Filter(s, keep) + (if keep(x) then [x] else [])
    decreases |s|
  {
    if s == [] {
      assert [] + [x] == [x] && [x][1..] == [];
    } else {
      assert (s + [x])[0] == s[0] && (s + [x])[1..] == s[1..] + [x];
      FilterSnoc(s[1..], x, keep);
    }
  }

  /**
   * A task under construction. Each mutator changes exactly the part of the
   * state it names; the runtime type checks of the source have no counterpart
   * since Dafny's types rule the bad arguments out.
   */
  class Task {
    const id: nat
    var name: string
    var negated: bool
    var handled: bool
    var isOpened: bool
    var isClosed: bool
    var fields: Option<seq<string>>
    var inside: Option<string>
    var lines: seq<int>
    var start: Option<int>
    var end: Option<int>
    var from: Option<nat>
    var parentId: Option<nat>
    var path: seq<string>
    var overloads: seq<Node>

    /** The task's current state as a value. */
    function Value(): Node
      reads this
    {
      Node(id, name, negated, handled, isOpened, isClosed, fields, inside, lines,
           start, end, from, parentId, path, overloads)
    }

    constructor (id: nat)
      ensures Value() == Blank(id)
    {
      this.id := id;
      name, negated, handled, isOpened, isClosed := "", false, false, false, false;
      fields, inside, lines, start, end := None, None, [], None, None;
      from, parentId, path, overloads := None, None, [], [];
    }

    method SetName(name: string)
      modifies this
      ensures Value() == old(Value()).(name := name)
    {
      this.name := name;
    }

    /** Appends to the field list, creating it when it is still absent. */
    method SetFields(more: seq<string>)
      modifies this
      ensures Value() == old(Value()).(fields := Some(old(fields).GetOr([]) + more))
    {
      fields := Some(fields.GetOr([]) + more);
    }

    method SetInside(content: string)
      modifies this
      ensures Value() == old(Value()).(inside := Some(content))
    {
      inside := Some(content);
    }

    method SetStartPoint(position: int)
      modifies this
      ensures Value() == old(Value()).(start := Some(position))
    {
      start := Some(position);
    }

    method SetEndPoint(position: int)
      modifies this
      ensures Value() == old(Value()).(end := Some(position))
    {
      end := Some(position);
    }

    method AddLine(line: int)
      modifies this
      ensures Value() == old(Value()).(lines := old(lines) + [line])
    {
      lines := lines + [line];
    }

    /** Appends nested tasks to the overloads, as `#parseInside` pushes them. */
    method AddOverloads(more: seq<Node>)
      modifies this
      ensures Value() == old(Value()).(overloads := old(overloads) + more)
    {
      overloads := overloads + more;
    }

    method SetOpened()
      modifies this
      ensures Value() == old(Value()).(isOpened := true)
    {
      isOpened := true;
    }

    method SetClosed()
      modifies this
      ensures Value() == old(Value()).(isClosed := true)
    {
      isClosed := true;
    }

    method MarkNegated()
      modifies this
      ensures Value() == old(Value()).(negated := true)
    {
      negated := true;
    }

    method MarkHandled()
      modifies this
      ensures Value() == old(Value()).(handled := true)
    {
      handled := true;
    }
  }
}
