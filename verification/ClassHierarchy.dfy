/**
 What the test audit resolves along a module's class hierarchy: the closure of a property under local
 inheritance, the unittest case classes, and the first explicit `__test__` value a class inherits.
 Base references are by name, so a hierarchy may be cyclic.
 */
module ClassHierarchy {
  import opened Wrappers

  /** A base expression: `Base`, `Base[int]`, `root.attr`, or anything else. */
  datatype Base = Named(id: string) | Subscripted(id: string) | Dotted(root: string, attr: string) | Opaque

  datatype ClassDef = ClassDef(name: string, bases: seq<Base>, flag: Option<bool>)

  datatype Alias = Alias(name: string, asname: Option<string>)

  datatype Import = Plain(aliases: seq<Alias>) | From(mod: string, aliases: seq<Alias>)

  // ---- least closed sets -------------------------------------------------------------------

  /** A class and what makes it join: one of the names already known, or its own base alone. */
  datatype Link = Link(name: string, heads: set<string>, joinsAnyway: bool)

  predicate Joins(link: Link, known: set<string>) { link.joinsAnyway || link.heads * known != {} }

  predicate Closed(links: seq<Link>, known: set<string>) {
    forall i :: 0 <= i < |links| && Joins(links[i], known) ==> links[i].name in known
  }

  /** The least set that contains the seeds and is closed under the links. */
  ghost predicate IsLeast(links: seq<Link>, seeds: set<string>, known: set<string>) {
    && seeds <= known && Closed(links, known)
    && forall other: set<string> :: seeds <= other && Closed(links, other) ==> known <= other
  }

  ghost predicate BelowAllClosed(links: seq<Link>, seeds: set<string>, known: set<string>) {
    forall other: set<string> :: seeds <= other && Closed(links, other) ==> known <= other
  }

  lemma JoiningStaysBelow(links: seq<Link>, seeds: set<string>, known: set<string>, i: nat)
    requires BelowAllClosed(links, seeds, known) && i < |links| && Joins(links[i], known)
    ensures BelowAllClosed(links, seeds, known + {links[i].name})
  {
    forall other: set<string> | seeds <= other && Closed(links, other) ensures known + {links[i].name} <= other {
      if !links[i].joinsAnyway {
        var head :| head in links[i].heads * known;
        assert head in links[i].heads * other;
      }
      assert Joins(links[i], other);
    }
  }

  /** There is only one least set, so the two closure loops below compute the same thing. */
  lemma LeastIsUnique(links: seq<Link>, seeds: set<string>, a: set<string>, b: set<string>)
    requires IsLeast(links, seeds, a) && IsLeast(links, seeds, b)
    ensures a == b
  {}

  function Names(links: seq<Link>): set<string> {
    set i | 0 <= i < |links| :: links[i].name
  }

  lemma GrewWithin(before: set<string>, known: set<string>, names: set<string>)
    requires before <= known <= before + names && known != before
    ensures names - known < names - before
  {
    assert known == before + (known - before);
    var x :| x in known - before;
    assert x in names - before && x !in names - known;
  }

  // ---- inheritance closure -----------------------------------------------------------------

  /** The base names a class refers to within the module; dotted bases come from other modules. */
  function BaseNames(bases: seq<Base>): seq<string> {
    if bases == [] then []
    else if bases[0].Named? || bases[0].Subscripted? then [bases[0].id] + BaseNames(bases[1..])
    else BaseNames(bases[1..])
  }

  function AllBaseNames(nodes: seq<ClassDef>): seq<string> {
    if nodes == [] then [] else BaseNames(nodes[0].bases) + AllBaseNames(nodes[1..])
  }

  /** A base adds its name, in its place, when it is a plain or subscripted one. */
  lemma {:induction false} BaseNamesSnoc(bases: seq<Base>, base: Base)
    ensures BaseNames(bases + [base])
         == BaseNames(bases) + if base.Named? || base.Subscripted? then [base.id] else []
  {
    if bases == [] {
      assert [base][1..] == [] && bases + [base] == [base];
    } else {
      assert (bases + [base])[1..] == bases[1..] + [base];
      BaseNamesSnoc(bases[1..], base);
    }
  }

  /** The names of the classes that share a name follow one another. */
  lemma {:induction false} AllBaseNamesSnoc(nodes: seq<ClassDef>, node: ClassDef)
    ensures AllBaseNames(nodes + [node]) == AllBaseNames(nodes) + BaseNames(node.bases)
  {
    if nodes == [] {
      assert [node][1..] == [] && nodes + [node] == [node];
    } else {
      assert (nodes + [node])[1..] == nodes[1..] + [node];
      AllBaseNamesSnoc(nodes[1..], node);
    }
  }

  /** The classes of a module grouped by name, in order of first appearance. */
  datatype Group = Group(name: string, nodes: seq<ClassDef>)

  function InheritanceLinks(byName: seq<Group>): seq<Link> {
    seq(|byName|, i requires 0 <= i < |byName| =>
      Link(byName[i].name, set b | b in AllBaseNames(byName[i].nodes), false))
  }

  /** `_inherited` terminates and returns exactly the least set with the seeds closed under local bases. */
  method Inherited(byName: seq<Group>, seeds: set<string>) returns (known: set<string>)
    ensures IsLeast(InheritanceLinks(byName), seeds, known)
  {
    ghost var links := InheritanceLinks(byName);
    known := seeds;
    var changed := true;
    while changed
      invariant seeds <= known && BelowAllClosed(links, seeds, known)
      invariant !changed ==> Closed(links, known)
      decreases Names(links) - known, changed
    {
      changed := false;
      ghost var before := known;
      for i := 0 to |byName|
        invariant seeds <= before <= known && BelowAllClosed(links, seeds, known)
        invariant changed <==> known != before
        invariant !changed ==> forall j :: 0 <= j < i && Joins(links[j], known) ==> links[j].name in known
        invariant known <= before + Names(links)
      {
        if byName[i].name in known {
          continue;
        }
        if exists base :: base in AllBaseNames(byName[i].nodes) && base in known {
          assert Joins(links[i], known) by {
            var base :| base in AllBaseNames(byName[i].nodes) && base in known;
            assert base in links[i].heads * known;
          }
          JoiningStaysBelow(links, seeds, known, i);
          assert links[i].name in Names(links);
          known := known + {byName[i].name};
          changed := true;
        }
      }
      if changed {
        GrewWithin(before, known, Names(links));
      }
    }
  }

  // ---- unittest case classes ---------------------------------------------------------------

  const UNITTEST_BASES := {"TestCase", "IsolatedAsyncioTestCase"}

  /** `name.split(".")[0]` */
  function Root(name: string): string {
    if name == [] || name[0] == '.' then [] else [name[0]] + Root(name[1..])
  }

  /** What precedes the first dot. */
  predicate IsRoot(name: string, root: string) {
    root <= name && '.' !in root && (root == name || name[|root|] == '.')
  }

  lemma {:induction false} RootIs(name: string, root: string)
    ensures root == Root(name) <==> IsRoot(name, root)
    decreases |name|
  {
    if name == [] || name[0] == '.' {
      assert root != [] && root <= name ==> name != [] && root[0] == name[0];
    } else if root != [] {
      RootIs(name[1..], root[1..]);
      RootUnder(name, root);
      assert root == [root[0]] + root[1..];
    }
  }

  lemma RootUnder(name: string, root: string)
    requires name != [] && root != [] && name[0] != '.'
    ensures IsRoot(name, root) <==> root[0] == name[0] && IsRoot(name[1..], root[1..])
  {
    assert root == [root[0]] + root[1..] && name == [name[0]] + name[1..];
    if root <= name {
      assert root[1..] == name[1..][..|root| - 1];
    }
    if root[0] == name[0] && root[1..] <= name[1..] {
      assert root == name[..|root|];
    }
  }

  function Bound(alias: Alias): string { if alias.asname.Some? then alias.asname.value else Root(alias.name) }

  predicate IsUnittestModule(name: string) { name == "unittest" || "unittest." <= name }

  /** The names the imports bind to the unittest module. */
  function ModuleAliases(imports: seq<Import>): set<string> {
    set i, j | 0 <= i < |imports| && imports[i].Plain? && 0 <= j < |imports[i].aliases|
               && IsUnittestModule(imports[i].aliases[j].name) :: Bound(imports[i].aliases[j])
  }

  /** The names the imports bind to a unittest case class directly. */
  function DirectCases(imports: seq<Import>): set<string> {
    set i, j | 0 <= i < |imports| && imports[i].From? && Root(imports[i].mod) == "unittest"
               && 0 <= j < |imports[i].aliases| && imports[i].aliases[j].name in UNITTEST_BASES ::
      if imports[i].aliases[j].asname.Some? then imports[i].aliases[j].asname.value else imports[i].aliases[j].name
  }

  /** The alias is known under this name: the one given, else what `otherwise` says. */
  predicate KnownAs(alias: Alias, name: string, otherwise: bool) {
    alias.asname == Some(name) || (alias.asname.None? && otherwise)
  }

  /** The alias, of the unittest module or a module within it, makes the name known: as given, else by its root. */
  predicate MakesModuleKnown(alias: Alias, name: string) {
    (alias.name == "unittest" || "unittest." <= alias.name) && KnownAs(alias, name, IsRoot(alias.name, name))
  }

  /** The alias, of one of the case classes, makes the name known: as given, else its own. */
  predicate MakesCaseKnown(alias: Alias, name: string) {
    alias.name in {"TestCase", "IsolatedAsyncioTestCase"} && KnownAs(alias, name, alias.name == name)
  }

  lemma ModuleKnown(alias: Alias, name: string)
    ensures MakesModuleKnown(alias, name) <==> IsUnittestModule(alias.name) && Bound(alias) == name
  {
    RootIs(alias.name, name);
  }

  /** Which names imports make known as the unittest module. */
  lemma ImportsMakeModulesKnown(imports: seq<Import>, name: string)
    ensures name in ModuleAliases(imports) <==>
              exists i, j :: 0 <= i < |imports| && imports[i].Plain? && 0 <= j < |imports[i].aliases|
                && MakesModuleKnown(imports[i].aliases[j], name)
  {
    forall alias ensures MakesModuleKnown(alias, name) <==> IsUnittestModule(alias.name) && Bound(alias) == name {
      ModuleKnown(alias, name);
    }
  }

  /** And which as its case classes. */
  lemma ImportsMakeCasesKnown(imports: seq<Import>, name: string)
    ensures name in DirectCases(imports) <==>
              exists i, j :: 0 <= i < |imports| && imports[i].From? && IsRoot(imports[i].mod, "unittest")
                && 0 <= j < |imports[i].aliases| && MakesCaseKnown(imports[i].aliases[j], name)
  {
    forall i | 0 <= i < |imports| && imports[i].From?
      ensures IsRoot(imports[i].mod, "unittest") <==> Root(imports[i].mod) == "unittest"
    {
      RootIs(imports[i].mod, "unittest");
    }
  }

  predicate IsUnittestBase(base: Base, known: set<string>, moduleAliases: set<string>) {
    match base
    case Named(id) => id in known
    case Dotted(root, attr) => attr in UNITTEST_BASES && root in moduleAliases
    case _ => false
  }

  function CaseLinks(classes: seq<ClassDef>, moduleAliases: set<string>): seq<Link> {
    seq(|classes|, i requires 0 <= i < |classes| =>
      Link(classes[i].name,
           set b | b in classes[i].bases && b.Named? :: b.id,
           exists b :: b in classes[i].bases && b.Dotted? && IsUnittestBase(b, {}, moduleAliases)))
  }

  lemma JoinsIffUnittestBase(classes: seq<ClassDef>, moduleAliases: set<string>, known: set<string>, i: nat)
    requires i < |classes|
    ensures Joins(CaseLinks(classes, moduleAliases)[i], known)
       <==> exists b :: b in classes[i].bases && IsUnittestBase(b, known, moduleAliases)
  {
    var link := CaseLinks(classes, moduleAliases)[i];
    if link.heads * known != {} {
      var head :| head in link.heads * known;
      var b :| b in classes[i].bases && b.Named? && b.id == head;
      assert IsUnittestBase(b, known, moduleAliases);
    }
    if b :| b in classes[i].bases && b.Dotted? && IsUnittestBase(b, {}, moduleAliases) {
      assert IsUnittestBase(b, known, moduleAliases);
    }
    if b :| b in classes[i].bases && IsUnittestBase(b, known, moduleAliases) {
      if b.Named? {
        assert b.id in link.heads * known;
      } else {
        assert IsUnittestBase(b, {}, moduleAliases);
      }
    }
  }

  /** `resolve_unittest_cases`: the imported case classes and everything in the module that derives from one. */
  method ResolveUnittestCases(imports: seq<Import>, classes: seq<ClassDef>) returns (known: set<string>)
    ensures IsLeast(CaseLinks(classes, ModuleAliases(imports)), DirectCases(imports), known)
  {
    var moduleAliases := ModuleAliases(imports);
    var seeds := DirectCases(imports);
    ghost var links := CaseLinks(classes, moduleAliases);
    known := seeds;
    var changed := true;
    while changed
      invariant seeds <= known && BelowAllClosed(links, seeds, known)
      invariant !changed ==> Closed(links, known)
      decreases Names(links) - known, changed
    {
      changed := false;
      ghost var before := known;
      for i := 0 to |classes|
        invariant seeds <= before <= known && BelowAllClosed(links, seeds, known)
        invariant changed <==> known != before
        invariant !changed ==> forall j :: 0 <= j < i && Joins(links[j], known) ==> links[j].name in known
        invariant known <= before + Names(links)
      {
        if classes[i].name in known {
          continue;
        }
        JoinsIffUnittestBase(classes, moduleAliases, known, i);
        if exists b :: b in classes[i].bases && IsUnittestBase(b, known, moduleAliases) {
          JoiningStaysBelow(links, seeds, known, i);
          assert links[i].name in Names(links);
          known := known + {classes[i].name};
          changed := true;
        }
      }
      if changed {
        GrewWithin(before, known, Names(links));
      }
    }
  }

  // ---- the first explicit collection flag --------------------------------------------------

  /** `_merge_flags`: of the explicit values of same-named classes, any opt-out wins. */
  function MergeFlags(nodes: seq<ClassDef>): Option<bool> {
    if nodes == [] then None
    else
      var rest := MergeFlags(nodes[1..]);
      if nodes[0].flag.None? then rest
      else if rest.None? then nodes[0].flag
      else Some(nodes[0].flag.value && rest.value)
  }

  lemma {:induction false} OptOutWins(nodes: seq<ClassDef>)
    ensures MergeFlags(nodes) == Some(false) <==> exists n :: n in nodes && n.flag == Some(false)
    ensures MergeFlags(nodes) == None <==> forall n :: n in nodes ==> n.flag == None
    ensures MergeFlags(nodes) == Some(true) <==>
              (exists n :: n in nodes && n.flag == Some(true)) && forall n :: n in nodes ==> n.flag != Some(false)
  {
    if nodes != [] {
      OptOutWins(nodes[1..]);
      assert nodes == [nodes[0]] + nodes[1..];
      assert nodes[0].flag.Some? ==> nodes[0].flag == Some(nodes[0].flag.value);
    }
  }

  /**
   A module's classes as the flag search sees them: assignments outside class bodies, the merged value
   of the class bodies, and the local base names in order.
   */
  datatype Hierarchy = Hierarchy(overrides: map<string, bool>, classes: map<string, seq<ClassDef>>)

  function Bases(h: Hierarchy, name: string): seq<string> {
    if name in h.classes then AllBaseNames(h.classes[name]) else []
  }

  /** The value written for the class itself; an assignment outside the class body comes later and wins. */
  function Explicit(h: Hierarchy, name: string): Option<bool> {
    if name in h.overrides then Some(h.overrides[name])
    else if name in h.classes then MergeFlags(h.classes[name])
    else None
  }

  /** An assignment outside the class body wins; else any opt-out in a body of that name, else any opt-in. */
  lemma ExplicitComesFrom(h: Hierarchy, name: string)
    ensures name in h.overrides ==> Explicit(h, name) == Some(h.overrides[name])
    ensures name !in h.overrides && name !in h.classes ==> Explicit(h, name) == None
    ensures name !in h.overrides && name in h.classes ==>
              var nodes := h.classes[name];
              && (Explicit(h, name) == Some(false) <==> exists n :: n in nodes && n.flag == Some(false))
              && (Explicit(h, name) == None <==> forall n :: n in nodes ==> n.flag == None)
  {
    if name in h.classes {
      OptOutWins(h.classes[name]);
    }
  }

  /** `flag_of`, with the classes already on the path. */
  function FlagOf(h: Hierarchy, name: string, seen: set<string>): Option<bool>
    decreases h.classes.Keys - seen, 1, 0
  {
    var flag := Explicit(h, name);
    if flag.Some? || name !in h.classes || name in seen then flag
    else
      assert name in h.classes.Keys - seen && name !in h.classes.Keys - (seen + {name});
      FirstFlag(h, Bases(h, name), seen + {name})
  }

  function FirstFlag(h: Hierarchy, names: seq<string>, seen: set<string>): Option<bool>
    decreases h.classes.Keys - seen, 2, |names|
  {
    if names == [] then None
    else
      var inherited := FlagOf(h, names[0], seen);
      if inherited.Some? then inherited else FirstFlag(h, names[1..], seen)
  }

  /** `resolve_opted_out_classes` */
  function OptedOut(h: Hierarchy): set<string> {
    set name | name in h.classes && FlagOf(h, name, {}) == Some(false)
  }

  /** A way up the hierarchy: every class is followed by one of its bases. */
  predicate IsPath(h: Hierarchy, path: seq<string>) {
    path != [] && forall i :: 0 <= i < |path| - 1 ==> path[i + 1] in Bases(h, path[i])
  }

  predicate Simple(path: seq<string>) {
    forall i, j :: 0 <= i < j < |path| ==> path[i] != path[j]
  }

  ghost predicate Ancestor(h: Hierarchy, name: string, ancestor: string) {
    exists path :: IsPath(h, path) && path[0] == name && path[|path| - 1] == ancestor
  }

  lemma {:induction false} SimplePath(h: Hierarchy, path: seq<string>) returns (simple: seq<string>)
    requires IsPath(h, path)
    ensures IsPath(h, simple) && Simple(simple)
    ensures simple[0] == path[0] && simple[|simple| - 1] == path[|path| - 1]
    ensures forall x :: x in simple ==> x in path
    decreases |path|
  {
    if |path| == 1 {
      simple := path;
    } else if i :| 0 < i < |path| && path[i] == path[0] {
      simple := SimplePath(h, path[i..]);
    } else {
      var rest := SimplePath(h, path[1..]);
      simple := [path[0]] + rest;
      assert path[0] !in path[1..];
      assert forall j :: 0 < j < |simple| ==> simple[j] == rest[j - 1];
    }
  }

  lemma {:induction false} FoundAlongSimplePath(h: Hierarchy, path: seq<string>, seen: set<string>)
    requires IsPath(h, path) && Simple(path) && Explicit(h, path[|path| - 1]).Some?
    requires forall x :: x in path ==> x !in seen
    ensures FlagOf(h, path[0], seen).Some?
    decreases |path|
  {
    if Explicit(h, path[0]).None? {
      assert path[1] in Bases(h, path[0]);
      assert path[1..][|path| - 2] == path[|path| - 1];
      FoundAlongSimplePath(h, path[1..], seen + {path[0]});
      FoundInList(h, Bases(h, path[0]), path[1], seen + {path[0]});
    }
  }

  lemma {:induction false} FoundInList(h: Hierarchy, names: seq<string>, name: string, seen: set<string>)
    requires name in names && FlagOf(h, name, seen).Some?
    ensures FirstFlag(h, names, seen).Some?
    decreases |names|
  {
    if names[0] != name {
      FoundInList(h, names[1..], name, seen);
    }
  }

  lemma LongerPath(h: Hierarchy, name: string, path: seq<string>) returns (longer: seq<string>)
    requires IsPath(h, path) && path[0] in Bases(h, name)
    ensures IsPath(h, longer) && |longer| > 1
    ensures longer[0] == name && longer[|longer| - 1] == path[|path| - 1]
  {
    longer := [name] + path;
    forall i | 0 <= i < |longer| - 1 ensures longer[i + 1] in Bases(h, longer[i]) {
      assert longer[i + 1] == path[i];
    }
  }

  lemma AncestorOfBase(h: Hierarchy, name: string, base: string, ancestor: string)
    requires base in Bases(h, name) && Ancestor(h, base, ancestor)
    ensures Ancestor(h, name, ancestor)
  {
    var path :| IsPath(h, path) && path[0] == base && path[|path| - 1] == ancestor;
    var longer := LongerPath(h, name, path);
  }

  lemma {:induction false} FlagIsInherited(h: Hierarchy, name: string, seen: set<string>) returns (ancestor: string)
    requires FlagOf(h, name, seen).Some?
    ensures Ancestor(h, name, ancestor) && Explicit(h, ancestor) == FlagOf(h, name, seen)
    decreases h.classes.Keys - seen, 1, 0
  {
    if Explicit(h, name).Some? {
      ancestor := name;
      assert IsPath(h, [name]);
    } else {
      assert name in h.classes.Keys - seen && name !in h.classes.Keys - (seen + {name});
      var base;
      base, ancestor := ListFlagIsInherited(h, Bases(h, name), seen + {name});
      AncestorOfBase(h, name, base, ancestor);
    }
  }

  lemma {:induction false} ListFlagIsInherited(h: Hierarchy, names: seq<string>, seen: set<string>)
    returns (name: string, ancestor: string)
    requires FirstFlag(h, names, seen).Some?
    ensures name in names && Ancestor(h, name, ancestor) && Explicit(h, ancestor) == FirstFlag(h, names, seen)
    decreases h.classes.Keys - seen, 2, |names|
  {
    if FlagOf(h, names[0], seen).Some? {
      name := names[0];
      ancestor := FlagIsInherited(h, name, seen);
    } else {
      name, ancestor := ListFlagIsInherited(h, names[1..], seen);
    }
  }

  /**
   On every hierarchy, cyclic ones included, the search terminates, finds a value exactly when some class
   reachable along local bases carries an explicit one, and what it finds is such a class's value.
   */
  lemma FlagFoundIffInherited(h: Hierarchy, name: string)
    ensures FlagOf(h, name, {}).Some? <==> exists a :: Ancestor(h, name, a) && Explicit(h, a).Some?
    ensures FlagOf(h, name, {}).Some? ==> exists a :: Ancestor(h, name, a) && Explicit(h, a) == FlagOf(h, name, {})
  {
    if FlagOf(h, name, {}).Some? {
      var a := FlagIsInherited(h, name, {});
    }
    if a :| Ancestor(h, name, a) && Explicit(h, a).Some? {
      var path :| IsPath(h, path) && path[0] == name && path[|path| - 1] == a;
      var simple := SimplePath(h, path);
      FoundAlongSimplePath(h, simple, {});
    }
  }

  // ---- acyclic hierarchies -----------------------------------------------------------------

  /** No way up the hierarchy leads from a class back to itself. */
  ghost predicate Acyclic(h: Hierarchy) {
    forall path :: IsPath(h, path) && |path| > 1 ==> path[|path| - 1] != path[0]
  }

  ghost predicate Above(h: Hierarchy, name: string, ancestor: string) {
    exists path :: IsPath(h, path) && |path| > 1 && path[0] == name && path[|path| - 1] == ancestor
  }

  function Mentioned(h: Hierarchy): set<string> { set name, base | name in h.classes && base in Bases(h, name) :: base }

  /** How many names lie above a class. */
  ghost function Rank(h: Hierarchy, name: string): nat { |set x | x in Mentioned(h) && Above(h, name, x)| }

  lemma BaseIsAbove(h: Hierarchy, name: string, base: string)
    requires base in Bases(h, name)
    ensures Above(h, name, base) && base in Mentioned(h)
  {
    assert IsPath(h, [name, base]);
  }

  lemma AboveBase(h: Hierarchy, name: string, base: string, x: string)
    requires base in Bases(h, name) && Above(h, base, x)
    ensures Above(h, name, x)
  {
    var path :| IsPath(h, path) && |path| > 1 && path[0] == base && path[|path| - 1] == x;
    var longer := LongerPath(h, name, path);
  }

  lemma FewerIn(fewer: set<string>, more: set<string>, x: string)
    requires fewer <= more && x in more && x !in fewer
    ensures |fewer| < |more|
  {
    var rest := more - fewer;
    assert more == fewer + rest && x in rest;
    assert |more| == |fewer| + |rest|;
  }

  lemma RankFalls(h: Hierarchy, name: string, base: string)
    requires Acyclic(h) && base in Bases(h, name)
    ensures Rank(h, base) < Rank(h, name)
  {
    var above := set x | x in Mentioned(h) && Above(h, name, x);
    var aboveBase := set x | x in Mentioned(h) && Above(h, base, x);
    BaseIsAbove(h, name, base);
    forall x | x in aboveBase ensures x in above {
      AboveBase(h, name, base, x);
    }
    FewerIn(aboveBase, above, base);
  }

  /** A rank that falls from every class to its bases. */
  ghost predicate Ranked(h: Hierarchy, rank: string -> nat) {
    forall name, base :: base in Bases(h, name) ==> rank(base) < rank(name)
  }

  lemma {:induction false} RankedPathFalls(h: Hierarchy, rank: string -> nat, path: seq<string>)
    requires Ranked(h, rank) && IsPath(h, path) && |path| > 1
    ensures rank(path[|path| - 1]) < rank(path[0])
    decreases |path|
  {
    assert path[1] in Bases(h, path[0]);
    if |path| > 2 {
      RankedPathFalls(h, rank, path[1..]);
    }
  }

  /** Whoever knows a rank knows there is no cycle, and without a cycle there is a rank. */
  lemma AcyclicExactlyWhenRanked(h: Hierarchy)
    ensures Acyclic(h) <==> exists rank: string -> nat :: Ranked(h, rank)
  {
    if Acyclic(h) {
      var rank: string -> nat := name => Rank(h, name);
      forall name, base | base in Bases(h, name) ensures rank(base) < rank(name) {
        RankFalls(h, name, base);
      }
      assert Ranked(h, rank);
    } else if rank: string -> nat :| Ranked(h, rank) {
      var path :| IsPath(h, path) && |path| > 1 && path[|path| - 1] == path[0];
      RankedPathFalls(h, rank, path);
    }
  }

  /** The class, then its bases' ancestors base by base: depth first, in base order. */
  ghost function DepthFirst(h: Hierarchy, name: string): seq<string>
    requires Acyclic(h)
    decreases Rank(h, name), 1, 0
  {
    BasesRankLower(h, name);
    [name] + DepthFirstAll(h, Bases(h, name), Rank(h, name))
  }

  ghost function DepthFirstAll(h: Hierarchy, names: seq<string>, bound: nat): seq<string>
    requires Acyclic(h) && forall n :: n in names ==> Rank(h, n) < bound
    decreases bound, 0, |names|
  {
    if names == [] then []
    else DepthFirst(h, names[0]) + DepthFirstAll(h, names[1..], bound)
  }

  lemma BasesRankLower(h: Hierarchy, name: string)
    requires Acyclic(h)
    ensures forall base :: base in Bases(h, name) ==> Rank(h, base) < Rank(h, name)
  {
    forall base | base in Bases(h, name) ensures Rank(h, base) < Rank(h, name) {
      RankFalls(h, name, base);
    }
  }

  function FirstExplicit(h: Hierarchy, names: seq<string>): Option<bool> {
    if names == [] then None
    else if Explicit(h, names[0]).Some? then Explicit(h, names[0])
    else FirstExplicit(h, names[1..])
  }

  lemma {:induction false} FirstExplicitConcat(h: Hierarchy, a: seq<string>, b: seq<string>)
    ensures FirstExplicit(h, a + b) == if FirstExplicit(h, a).Some? then FirstExplicit(h, a) else FirstExplicit(h, b)
  {
    if a == [] {
      assert a + b == b;
    } else {
      assert (a + b)[1..] == a[1..] + b;
      FirstExplicitConcat(h, a[1..], b);
    }
  }

  lemma {:induction false} FlagIsDepthFirst(h: Hierarchy, name: string, seen: set<string>)
    requires Acyclic(h) && forall s :: s in seen ==> Rank(h, name) < Rank(h, s)
    ensures FlagOf(h, name, seen) == FirstExplicit(h, DepthFirst(h, name))
    decreases Rank(h, name), 1, 0
  {
    BasesRankLower(h, name);
    var above := DepthFirstAll(h, Bases(h, name), Rank(h, name));
    assert DepthFirst(h, name)[1..] == above;
    if Explicit(h, name).None? && name in h.classes {
      FlagsAreDepthFirst(h, Bases(h, name), Rank(h, name), seen + {name});
    }
  }

  lemma {:induction false} FlagsAreDepthFirst(h: Hierarchy, names: seq<string>, bound: nat, seen: set<string>)
    requires Acyclic(h) && (forall n :: n in names ==> Rank(h, n) < bound)
    requires forall s :: s in seen ==> bound <= Rank(h, s)
    ensures FirstFlag(h, names, seen) == FirstExplicit(h, DepthFirstAll(h, names, bound))
    decreases bound, 0, |names|
  {
    if names != [] {
      FlagIsDepthFirst(h, names[0], seen);
      FlagsAreDepthFirst(h, names[1..], bound, seen);
      FirstExplicitConcat(h, DepthFirst(h, names[0]), DepthFirstAll(h, names[1..], bound));
    }
  }

  /**
   On every hierarchy: an opted-out class can reach one that opts out, a class that says so itself is taken
   at its word, and where no reachable class opts in, the opted-out are exactly those that reach an opt-out.
   */
  lemma OptedOutInherit(h: Hierarchy, name: string)
    ensures name in OptedOut(h) ==> exists a :: Ancestor(h, name, a) && Explicit(h, a) == Some(false)
    ensures name in h.classes && Explicit(h, name).Some? ==>
              (name in OptedOut(h) <==> Explicit(h, name) == Some(false))
    ensures name in h.classes && (forall a :: Ancestor(h, name, a) ==> Explicit(h, a) != Some(true)) ==>
              (name in OptedOut(h) <==> exists a :: Ancestor(h, name, a) && Explicit(h, a) == Some(false))
  {
    FlagFoundIffInherited(h, name);
    if FlagOf(h, name, {}).Some? {
      var a :| Ancestor(h, name, a) && Explicit(h, a) == FlagOf(h, name, {});
      var value := FlagOf(h, name, {}).value;
      assert Explicit(h, a) == if value then Some(true) else Some(false);
    }
  }

  /** On an acyclic hierarchy the opted-out classes are those whose first explicit value, depth first, opts out. */
  lemma {:induction false} OptedOutExactlyWhen(h: Hierarchy, name: string)
    requires Acyclic(h)
    ensures name in OptedOut(h) <==> name in h.classes && FirstExplicit(h, DepthFirst(h, name)) == Some(false)
  {
    FirstExplicitInDepthFirstOrder(h, name);
  }

  /** On an acyclic hierarchy the search returns the first explicit value in depth-first base order. */
  lemma {:induction false} FirstExplicitInDepthFirstOrder(h: Hierarchy, name: string)
    requires Acyclic(h)
    ensures FlagOf(h, name, {}) == FirstExplicit(h, DepthFirst(h, name))
  {
    FlagIsDepthFirst(h, name, {});
  }
}
