/** Target paths: how a scenario names a node of the site. */
module Targets {
  import opened Wrappers
  import opened Decimals

  datatype Target =
    | SiteTarget
    | BlockTarget(block: nat)
    | PcsTarget(block: nat)
    | HvacTarget(block: nat, container: nat)
    | RackTarget(block: nat, container: nat, rack: nat)

  /** What a site has: at least one of each, as any configuration does. */
  datatype Shape = Shape(blocks: nat, containers: nat, racks: nat)
  {
    predicate Valid() {
      1 <= blocks <= USIZE_MAX && 1 <= containers <= USIZE_MAX && 1 <= racks <= USIZE_MAX
    }

    predicate Has(t: Target) {
      match t
      case SiteTarget => true
      case BlockTarget(b) => b < blocks
      case PcsTarget(b) => b < blocks
      case HvacTarget(b, c) => b < blocks && c < containers
      case RackTarget(b, c, r) => b < blocks && c < containers && r < racks
    }
  }

  /** The largest 64-bit index. */
  const USIZE_MAX := 0xffff_ffff_ffff_ffff

  datatype Expected =
    | Roots
    | BlockRange
    | BlockParts
    | ContainerParts
    | NameAContainerPart
    | NoPcsParts
    | NoParts
    | PlainIndices(name: string)
    | NotAnIndex(inner: string)

  /** The path up to and including the part at fault, and what the site has there. */
  datatype TargetError = TargetError(at: string, expected: Expected)

  // ----- One part ----------------------------------------------------------------------

  predicate IsIndexed(part: string, name: string) {
    name + "[" <= part && |name| + 2 <= |part| && part[|part| - 1] == ']'
  }

  /** `name[N]` to N: `None` when the part is no `name[...]` at all. */
  function Indexed(part: string, name: string): Option<Result<nat, Expected>> {
    if !IsIndexed(part, name) then None else
      var inner := part[|name| + 1..|part| - 1];
      Some(if !IsPlain(inner) then Err(PlainIndices(name))
           else if USIZE_MAX < Value(inner) then Err(NotAnIndex(inner))
           else Ok(Value(inner)))
  }

  function Part(name: string, n: nat): string {
    name + "[" + Plain(n) + "]"
  }

  lemma IndexedReads(name: string, n: nat)
    requires n <= USIZE_MAX
    ensures Indexed(Part(name, n), name) == Some(Ok(n))
  {
    var part := Part(name, n);
    assert part[|name| + 1..|part| - 1] == Plain(n);
    PlainReads(n);
  }

  lemma ReadsIndexed(part: string, name: string)
    requires Indexed(part, name).Some? && Indexed(part, name).value.Ok?
    ensures part == Part(name, Indexed(part, name).value.value)
    ensures Indexed(part, name).value.value <= USIZE_MAX
  {
    var inner := part[|name| + 1..|part| - 1];
    ReadsPlain(inner);
    assert part == part[..|name| + 1] + inner + part[|part| - 1..];
    assert part[..|name| + 1] == name + "[";
    assert part[|part| - 1..] == "]";
  }

  // ----- Parsing -------------------------------------------------------------------------

  /** The error at the first parts of a path. */
  function Fail(path: string, upto: nat, expected: Expected): Result<Target, TargetError> {
    var parts := Split(path);
    Err(TargetError(Join(parts[..if upto + 1 <= |parts| then upto + 1 else |parts|]), expected))
  }

  function Parse(path: string, site: Shape): Result<Target, TargetError>
    requires site.Valid()
  {
    var parts := Split(path);
    if parts == ["site"] then Ok(SiteTarget) else
      match Indexed(parts[0], "block")
      case None => Fail(path, 0, Roots)
      case Some(Err(why)) => Fail(path, 0, why)
      case Some(Ok(b)) =>
        if site.blocks <= b then Fail(path, 0, BlockRange)
        else if |parts| == 1 then Ok(BlockTarget(b))
        else if parts[1] == "pcs" then (if |parts| == 2 then Ok(PcsTarget(b)) else Fail(path, 2, NoPcsParts))
        else ParseContainer(path, parts, site, b)
  }

  function ParseContainer(path: string, parts: seq<string>, site: Shape, b: nat): Result<Target, TargetError>
    requires |parts| >= 2
  {
    match Indexed(parts[1], "container")
    case None => Fail(path, 1, BlockParts)
    case Some(Err(why)) => Fail(path, 1, why)
    case Some(Ok(c)) =>
      if site.containers <= c then Fail(path, 1, BlockParts)
      else if |parts| == 2 then Fail(path, 1, NameAContainerPart)
      else
        match ParseLeaf(path, parts[2], site, b, c)
        case Err(e) => Err(e)
        case Ok(target) => if |parts| > 3 then Fail(path, 3, NoParts) else Ok(target)
  }

  function ParseLeaf(path: string, part: string, site: Shape, b: nat, c: nat): Result<Target, TargetError> {
    if part == "hvac" then Ok(HvacTarget(b, c)) else
      match Indexed(part, "rack")
      case None => Fail(path, 2, ContainerParts)
      case Some(Err(why)) => Fail(path, 2, why)
      case Some(Ok(r)) => if site.racks <= r then Fail(path, 2, ContainerParts) else Ok(RackTarget(b, c, r))
  }

  // ----- Printing ------------------------------------------------------------------------

  function Parts(t: Target): (parts: seq<string>)
    ensures parts != []
  {
    match t
    case SiteTarget => ["site"]
    case BlockTarget(b) => [Part("block", b)]
    case PcsTarget(b) => [Part("block", b), "pcs"]
    case HvacTarget(b, c) => [Part("block", b), Part("container", c), "hvac"]
    case RackTarget(b, c, r) => [Part("block", b), Part("container", c), Part("rack", r)]
  }

  function Display(t: Target): string {
    match t
    case SiteTarget => "site"
    case BlockTarget(b) => Part("block", b)
    case PcsTarget(b) => Part("block", b) + "." + "pcs"
    case HvacTarget(b, c) => Part("block", b) + "." + (Part("container", c) + "." + "hvac")
    case RackTarget(b, c, r) => Part("block", b) + "." + (Part("container", c) + "." + Part("rack", r))
  }

  lemma JoinTwo(a: string, b: string)
    ensures Join([a, b]) == a + "." + b
  {
    assert [a, b][1..] == [b];
  }

  lemma JoinThree(a: string, b: string, c: string)
    ensures Join([a, b, c]) == a + "." + (b + "." + c)
  {
    assert [a, b, c][1..] == [b, c];
    JoinTwo(b, c);
  }

  /** The printed path is the joined parts. */
  lemma DisplayJoins(t: Target)
    ensures Display(t) == Join(Parts(t))
  {
    match t
    case SiteTarget =>
    case BlockTarget(b) =>
    case PcsTarget(b) => JoinTwo(Part("block", b), "pcs");
    case HvacTarget(b, c) => JoinThree(Part("block", b), Part("container", c), "hvac");
    case RackTarget(b, c, r) => JoinThree(Part("block", b), Part("container", c), Part("rack", r));
    hide Plain, Part;
  }

  lemma PartDotless(name: string, n: nat)
    requires Dotless(name)
    ensures Dotless(Part(name, n))
  {
    assert '.' !in Plain(n);
    hide Plain;
  }

  lemma PartsDotless(t: Target)
    ensures forall p <- Parts(t) :: Dotless(p)
  {
    hide Part;
    match t
    case SiteTarget =>
    case BlockTarget(b) => PartDotless("block", b);
    case PcsTarget(b) => PartDotless("block", b);
    case HvacTarget(b, c) =>
      PartDotless("block", b);
      PartDotless("container", c);
    case RackTarget(b, c, r) =>
      PartDotless("block", b);
      PartDotless("container", c);
      PartDotless("rack", r);
  }

  lemma PartNotWord(name: string, n: nat, word: string)
    requires word != "" && word[|word| - 1] != ']'
    ensures Part(name, n) != word
  {
    assert Part(name, n)[|Part(name, n)| - 1] == ']';
  }

  lemma PartsParseDeep(path: string, site: Shape, t: Target)
    requires site.Valid() && site.Has(t) && (t.HvacTarget? || t.RackTarget?)
    ensures ParseContainer(path, Parts(t), site, t.block) == Ok(t)
  {
    IndexedReads("container", t.container);
    if t.RackTarget? {
      IndexedReads("rack", t.rack);
      PartNotWord("rack", t.rack, "hvac");
    }
    hide Indexed, Part, Fail;
  }

  lemma PartsParse(path: string, site: Shape, t: Target)
    requires site.Valid() && site.Has(t) && Split(path) == Parts(t)
    ensures Parse(path, site) == Ok(t)
  {
    if t != SiteTarget {
      IndexedReads("block", t.block);
      PartNotWord("block", t.block, "site");
    }
    if t.HvacTarget? || t.RackTarget? {
      PartNotWord("container", t.container, "pcs");
      PartsParseDeep(path, site, t);
    }
    hide Indexed, Part, Split, ParseContainer, Fail;
  }

  /** Every node of the site prints to a path that parses back to it. */
  lemma DisplayParses(t: Target, site: Shape)
    requires site.Valid() && site.Has(t)
    ensures Parse(Display(t), site) == Ok(t)
  {
    hide Parse, Parts, Display, Split, Join;
    DisplayJoins(t);
    PartsDotless(t);
    SplitJoin(Parts(t));
    PartsParse(Display(t), site, t);
  }

  lemma LeafReads(path: string, part: string, site: Shape, b: nat, c: nat)
    requires ParseLeaf(path, part, site, b, c).Ok?
    ensures var t := ParseLeaf(path, part, site, b, c).value;
      || (t == HvacTarget(b, c) && part == "hvac")
      || (t.RackTarget? && t == RackTarget(b, c, t.rack) && part == Part("rack", t.rack) && t.rack < site.racks)
  {
    if part != "hvac" { ReadsIndexed(part, "rack"); }
    hide Indexed, Part;
  }

  lemma ContainerReads(path: string, parts: seq<string>, site: Shape, b: nat)
    requires |parts| >= 2 && parts[0] == Part("block", b) && ParseContainer(path, parts, site, b).Ok?
    ensures var t := ParseContainer(path, parts, site, b).value;
      parts == Parts(t) && (b < site.blocks ==> site.Has(t))
  {
    ReadsIndexed(parts[1], "container");
    var c := Indexed(parts[1], "container").value.value;
    LeafReads(path, parts[2], site, b, c);
    hide Indexed, Part, ParseLeaf, Fail;
  }

  /** Every accepted path names a node of the site and is that node's one spelling. */
  lemma ParsesDisplay(path: string, site: Shape)
    requires site.Valid() && Parse(path, site).Ok?
    ensures var t := Parse(path, site).value; site.Has(t) && Display(t) == path
  {
    var parts, t := Split(path), Parse(path, site).value;
    JoinSplit(path);
    DisplayJoins(t);
    hide Indexed, Part, Split, Join, Display, Plain, ParseContainer, Fail;
    if parts != ["site"] {
      ReadsIndexed(parts[0], "block");
      var b := Indexed(parts[0], "block").value.value;
      if |parts| >= 2 && parts[1] != "pcs" { ContainerReads(path, parts, site, b); }
    }
    assert parts == Parts(t);
  }

  /** The two directions as one: a path is accepted as a node exactly when the site has
      that node and the path is how it prints. */
  lemma CanonicalPaths(path: string, t: Target, site: Shape)
    requires site.Valid()
    ensures Parse(path, site) == Ok(t) <==> site.Has(t) && path == Display(t)
  {
    hide Parse, Display;
    if Parse(path, site).Ok? { ParsesDisplay(path, site); }
    if site.Has(t) { DisplayParses(t, site); }
  }

  /** A refusal quotes the beginning of the path it was given. */
  lemma ErrorsQuoteThePath(path: string, site: Shape)
    requires site.Valid() && Parse(path, site).Err?
    ensures Parse(path, site).error.at <= path
  {
    JoinSplit(path);
    var parts := Split(path);
    QuotesPrefix(path, 0);
    QuotesPrefix(path, 1);
    QuotesPrefix(path, 2);
    QuotesPrefix(path, 3);
    hide Indexed, Split, Join, Fail;
    FailsWhere(path, site);
  }

  function Quoted(path: string, upto: nat): string {
    var parts := Split(path);
    Join(parts[..if upto + 1 <= |parts| then upto + 1 else |parts|])
  }

  lemma QuotesPrefix(path: string, upto: nat)
    ensures Quoted(path, upto) <= path
  {
    var parts := Split(path);
    JoinSplit(path);
    JoinPrefix(parts, if upto + 1 <= |parts| then upto + 1 else |parts|);
  }

  lemma FailsWhere(path: string, site: Shape)
    requires site.Valid() && Parse(path, site).Err?
    ensures Parse(path, site).error.at in {Quoted(path, 0), Quoted(path, 1), Quoted(path, 2), Quoted(path, 3)}
  {
    hide Indexed, Split, Join;
  }
}
