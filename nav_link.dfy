/**
  The compatibility wrapper around the router's NavLink
  (src/components/NavLink.tsx): the `cn` class-name combinator, the class
  computed from the router's active/pending flags, and the plain `<span>`
  rendered when no destination is given.

  The rendered elements are values: a span with a class, or a router link
  with its destination and the three class props after defaults.
*/
module NavLink {
  import opened Wrappers

  /** An argument of `cn`: a string or one of the falsy non-strings it accepts. */
  datatype ClassArg = Str(s: string) | False | Null | Undefined

  /** The `Boolean` filter: only non-empty strings are truthy. */
  predicate Truthy(a: ClassArg) {
    a.Str? && a.s != ""
  }

  /** `classes.filter(Boolean)`, keeping the strings of the truthy arguments in order. */
  function KeepTruthy(args: seq<ClassArg>): (kept: seq<string>)
    ensures |kept| <= |args|
    ensures forall k :: 0 <= k < |kept| ==> kept[k] != ""
    ensures kept == [] <==> forall k :: 0 <= k < |args| ==> !Truthy(args[k])
  {
    if args == [] then []
    else KeepTruthy(args[..|args| - 1]) + (if Truthy(args[|args| - 1]) then [args[|args| - 1].s] else [])
  }

  /** `parts.join(" ")`. */
  function Join(parts: seq<string>): (s: string)
    ensures parts == [] ==> s == ""
    ensures |parts| == 1 ==> s == parts[0]
  {
    if parts == [] then ""
    else if |parts| == 1 then parts[0]
    else Join(parts[..|parts| - 1]) + " " + parts[|parts| - 1]
  }

  /** `cn(...classes)`: the empty string exactly when no argument is truthy. */
  function Cn(args: seq<ClassArg>): (c: string)
    ensures c == "" <==> forall k :: 0 <= k < |args| ==> !Truthy(args[k])
  {
    var kept := KeepTruthy(args);
    JoinEmpty(kept);
    Join(kept)
  }

  /** Two class strings side by side: separated by one space, unless one of them is empty. */
  function Glue(x: string, y: string): (s: string)
    ensures x == "" ==> s == y
    ensures y == "" ==> s == x
    ensures |x| <= |s| && s[..|x|] == x
  {
    if x == "" then y else if y == "" then x else x + " " + y
  }

  /** Filtering distributes over concatenation: nothing is reordered, and each argument is judged alone. */
  lemma {:induction false} KeepTruthyAppend(a: seq<ClassArg>, b: seq<ClassArg>)
    ensures KeepTruthy(a + b) == KeepTruthy(a) + KeepTruthy(b)
  {
    if b == [] {
      assert a + b == a;
    } else {
      var b' := b[..|b| - 1];
      assert (a + b)[..|a + b| - 1] == a + b';
      KeepTruthyAppend(a, b');
    }
  }

  /** A single argument survives exactly when it is truthy. */
  lemma KeepTruthySingle(a: ClassArg)
    ensures KeepTruthy([a]) == (if Truthy(a) then [a.s] else [])
  {
    assert [a][..0] == [];
  }

  /** Joining non-empty parts gives the empty string only for no parts. */
  lemma {:induction false} JoinEmpty(parts: seq<string>)
    requires forall k :: 0 <= k < |parts| ==> parts[k] != ""
    ensures Join(parts) == "" <==> parts == []
  {
    if |parts| > 1 {
      assert |Join(parts)| >= |parts[|parts| - 1]| + 1;
    }
  }

  /** Joining a concatenation of non-empty parts glues the two joins. */
  lemma {:induction false} JoinAppend(a: seq<string>, b: seq<string>)
    requires forall k :: 0 <= k < |a| ==> a[k] != ""
    requires forall k :: 0 <= k < |b| ==> b[k] != ""
    ensures Join(a + b) == Glue(Join(a), Join(b))
  {
    JoinEmpty(a);
    if b == [] {
      assert a + b == a;
    } else if |b| == 1 {
      if a == [] {
        assert a + b == b;
      } else {
        assert (a + b)[..|a + b| - 1] == a;
      }
    } else {
      var b' := b[..|b| - 1];
      assert (a + b)[..|a + b| - 1] == a + b';
      JoinAppend(a, b');
      JoinEmpty(b');
    }
  }

  /**
    `cn` of a concatenation glues the two results: falsy arguments leave no
    trace, and the kept strings stay in their original order, one space
    apart.
  */
  lemma CnAppend(a: seq<ClassArg>, b: seq<ClassArg>)
    ensures Cn(a + b) == Glue(Cn(a), Cn(b))
  {
    KeepTruthyAppend(a, b);
    JoinAppend(KeepTruthy(a), KeepTruthy(b));
  }

  /** One argument: its string if truthy, "" otherwise. */
  lemma CnSingle(a: ClassArg)
    ensures Cn([a]) == (if Truthy(a) then a.s else "")
  {
    KeepTruthySingle(a);
  }

  /** `cn(a, b, c)` glues the truthy ones among its three arguments. */
  lemma CnThree(a: ClassArg, b: ClassArg, c: ClassArg)
    ensures Cn([a, b, c]) == Glue(Glue(Cn([a]), Cn([b])), Cn([c]))
  {
    assert [a, b, c] == [a] + [b] + [c];
    CnAppend([a] + [b], [c]);
    CnAppend([a], [b]);
  }

  /**
    The `className` callback handed to the router link: the wrapper's own
    class, then the active class when the link is active, then the pending
    class when the router reports pending (an undefined flag counts as not
    pending).
  */
  function ComputedClass(className: string, activeClassName: string, pendingClassName: string,
                         isActive: bool, isPending: Option<bool>): (c: string)
    ensures |className| <= |c| && c[..|className|] == className
  {
    var b := if isActive then Str(activeClassName) else Undefined;
    var p := if isPending.Some? && isPending.value then Str(pendingClassName) else Undefined;
    CnThree(Str(className), b, p);
    CnSingle(Str(className));
    CnSingle(b);
    CnSingle(p);
    var g := Glue(className, Cn([b]));
    var c := Glue(g, Cn([p]));
    assert c[..|className|] == c[..|g|][..|className|];
    c
  }

  /**
    The computed class in each of the four router states: `activeClassName`
    contributes only when active, `pendingClassName` only when pending is
    defined and true, each after a single space and only when non-empty.
  */
  lemma ComputedClassCases(className: string, activeClassName: string, pendingClassName: string,
                           isActive: bool, isPending: Option<bool>)
    ensures var pending := isPending == Some(true);
      var c := ComputedClass(className, activeClassName, pendingClassName, isActive, isPending);
      && (!isActive && !pending ==> c == className)
      && (isActive && !pending ==> c == Glue(className, activeClassName))
      && (!isActive && pending ==> c == Glue(className, pendingClassName))
      && (isActive && pending ==> c == Glue(Glue(className, activeClassName), pendingClassName))
  {
    var b := if isActive then Str(activeClassName) else Undefined;
    var p := if isPending.Some? && isPending.value then Str(pendingClassName) else Undefined;
    CnThree(Str(className), b, p);
    CnSingle(Str(className));
    CnSingle(b);
    CnSingle(p);
  }

  /** With the default (empty) active and pending classes the link's class is just `className`. */
  lemma DefaultsGiveClassName(className: string, isActive: bool, isPending: Option<bool>)
    ensures ComputedClass(className, "", "", isActive, isPending) == className
  {
    ComputedClassCases(className, "", "", isActive, isPending);
  }

  /** The props the wrapper reads; an absent prop is `None`. */
  datatype Props = Props(to: Option<string>, className: Option<string>,
                         activeClassName: Option<string>, pendingClassName: Option<string>)

  /** A destructuring default of "". */
  function OrEmpty(o: Option<string>): (s: string)
    ensures o.Some? ==> s == o.value
    ensures o.None? ==> s == ""
  {
    if o.Some? then o.value else ""
  }

  /** What the wrapper renders. */
  datatype Element =
    | Span(spanClass: string)
    | RouterLink(to: string, className: string, activeClassName: string, pendingClassName: string)

  /**
    The wrapper's render: without a destination, or with the empty one, a
    span carrying exactly `className` and no link; otherwise a router link
    to that destination carrying the three classes after defaults.
  */
  function Render(props: Props): (e: Element)
    ensures e.Span? <==> props.to == None || props.to == Some("")
    ensures e.Span? ==> e.spanClass == OrEmpty(props.className)
    ensures e.RouterLink? ==> e == RouterLink(props.to.value, OrEmpty(props.className),
                                             OrEmpty(props.activeClassName), OrEmpty(props.pendingClassName))
  {
    if props.to.None? || props.to.value == "" then Span(OrEmpty(props.className))
    else RouterLink(props.to.value, OrEmpty(props.className),
                    OrEmpty(props.activeClassName), OrEmpty(props.pendingClassName))
  }

  /** The class the router gives a rendered link in a given state; a span keeps its own. */
  function ClassOf(e: Element, isActive: bool, isPending: Option<bool>): string {
    match e
    case Span(c) => c
    case RouterLink(_, c, a, p) => ComputedClass(c, a, p, isActive, isPending)
  }

  /**
    A link rendered without active or pending classes shows its own class
    in every router state, and the fallback span ignores them entirely.
  */
  lemma RenderedClassWithDefaults(props: Props, isActive: bool, isPending: Option<bool>)
    requires props.activeClassName == None && props.pendingClassName == None
    ensures ClassOf(Render(props), isActive, isPending) == OrEmpty(props.className)
  {
    DefaultsGiveClassName(OrEmpty(props.className), isActive, isPending);
  }
}
