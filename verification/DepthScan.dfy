/** The nesting pre-scan justifies the recursive parse of the generator and of the loader: once
    it has passed, their depth limits never decide anything. */
module DepthScan {
  import opened Bytes
  import opened Json
  import opened Scanner
  import opened Documents
  import opened Objects
  import opened Nesting
  import Generator
  import Loader

  lemma AdmissibleSame(members: seq<Member>, good: Member -> bool, good': Member -> bool, keys: set<Bytes>)
    requires forall k :: 0 <= k < |members| ==> (good(members[k]) <==> good'(members[k]))
    ensures Admissible(members, good, keys) <==> Admissible(members, good', keys)
  {
  }

  /** Brackets within the limit fit at every depth limit from there on. */
  lemma FitsAlways(v: Value, depth: nat, limit: nat)
    requires depth + Brackets(v) <= limit
    ensures forall n: nat :: n >= limit ==> Fits(v, depth, n)
  {
    hide Height, Brackets;
    HeightWithin(v);
  }

  // ---- the generator ----

  lemma GeneratorTool(v: Value, limits: Generator.GeneratorLimits, n: nat)
    requires 2 + Brackets(v) <= limits.maxNestingDepth <= n
    ensures Generator.IsTool(v, limits) <==> Generator.IsTool(v, limits.(maxNestingDepth := n))
  {
    hide Count, Admissible, Fits;
    if v.Obj? {
      var deep := limits.(maxNestingDepth := n);
      forall k | 0 <= k < |v.members|
        ensures Generator.ToolMember(limits)(v.members[k]) <==> Generator.ToolMember(deep)(v.members[k])
      {
        MemberWithin(v.members, k);
        FitsAlways(v.members[k].value, 3, limits.maxNestingDepth);
      }
      AdmissibleSame(v.members, Generator.ToolMember(limits), Generator.ToolMember(deep), Generator.TOOL_KEYS);
    }
  }

  lemma GeneratorTools(v: Value, limits: Generator.GeneratorLimits, n: nat)
    requires 1 + Brackets(v) <= limits.maxNestingDepth <= n
    ensures Generator.IsToolsArray(v, limits) <==> Generator.IsToolsArray(v, limits.(maxNestingDepth := n))
  {
    hide Generator.IsTool, Generator.NameOf;
    if v.Arr? {
      var deep := limits.(maxNestingDepth := n);
      forall k | 0 <= k < |v.items|
        ensures Generator.IsTool(v.items[k].value, limits) <==> Generator.IsTool(v.items[k].value, deep)
      {
        ItemWithin(v.items, k);
        GeneratorTool(v.items[k].value, limits, n);
      }
    }
  }

  /** GENERATOR: after the pre-scan at limit N, the structured parse at limit N accepts the same
      documents as at any larger limit, so as with none; it reads the same names either way. */
  lemma GeneratorDepth(json: Bytes, limits: Generator.GeneratorLimits, n: nat)
    requires !Exceeds(json, 0, 0, limits.maxNestingDepth) && n >= limits.maxNestingDepth
    ensures Generator.Parses(json, limits) <==> Generator.Parses(json, limits.(maxNestingDepth := n))
  {
    hide DocMembers, Exceeds, Count, Admissible, Fits, Generator.IsToolsArray, Brackets;
    if DocMembers(json, OpenEnd).Some? {
      var members := DocMembers(json, OpenEnd).value;
      var deep := limits.(maxNestingDepth := n);
      DocScan(json, OpenEnd, limits.maxNestingDepth);
      forall k | 0 <= k < |members|
        ensures Generator.DocumentMember(limits)(members[k]) <==> Generator.DocumentMember(deep)(members[k])
      {
        MemberWithin(members, k);
        FitsAlways(members[k].value, 1, limits.maxNestingDepth);
        GeneratorTools(members[k].value, limits, n);
      }
      AdmissibleSame(members, Generator.DocumentMember(limits), Generator.DocumentMember(deep), Generator.DOCUMENT_KEYS);
    }
  }

  // ---- the loader ----

  lemma LoaderDefaults(v: Value, limit: nat, n: nat)
    requires 1 + Brackets(v) <= limit <= n
    ensures Loader.AreDefaults(v, limit) <==> Loader.AreDefaults(v, n)
  {
    hide Count, Admissible, Fits;
    if v.Obj? {
      forall k | 0 <= k < |v.members|
        ensures Loader.DefaultsMember(limit)(v.members[k]) <==> Loader.DefaultsMember(n)(v.members[k])
      {
        MemberWithin(v.members, k);
        FitsAlways(v.members[k].value, 2, limit);
      }
      AdmissibleSame(v.members, Loader.DefaultsMember(limit), Loader.DefaultsMember(n), Loader.DEFAULTS_KEYS);
    }
  }

  lemma LoaderRule(v: Value, limit: nat, n: nat)
    requires 2 + Brackets(v) <= limit <= n
    ensures Loader.IsRule(v, limit) <==> Loader.IsRule(v, n)
  {
    hide Count, Admissible, Fits;
    if v.Obj? {
      forall k | 0 <= k < |v.members|
        ensures Loader.ToolMember(limit)(v.members[k]) <==> Loader.ToolMember(n)(v.members[k])
      {
        MemberWithin(v.members, k);
        FitsAlways(v.members[k].value, 3, limit);
      }
      AdmissibleSame(v.members, Loader.ToolMember(limit), Loader.ToolMember(n), Loader.TOOL_KEYS);
    }
  }

  lemma LoaderRules(v: Value, limit: nat, n: nat)
    requires 1 + Brackets(v) <= limit <= n
    ensures Loader.IsRulesArray(v, limit) <==> Loader.IsRulesArray(v, n)
  {
    hide Loader.IsRule;
    if v.Arr? {
      forall k | 0 <= k < |v.items| ensures Loader.IsRule(v.items[k].value, limit) <==> Loader.IsRule(v.items[k].value, n) {
        ItemWithin(v.items, k);
        LoaderRule(v.items[k].value, limit, n);
      }
    }
  }

  /** LOADER: the same, including its own checks that the limit leaves room for the defaults and
      the rules. */
  lemma LoaderDepth(json: Bytes, limit: nat, n: nat)
    requires !Exceeds(json, 0, 0, limit) && n >= limit
    ensures Loader.Parses(json, limit) <==> Loader.Parses(json, n)
  {
    hide DocMembers, Exceeds, Count, Admissible, Fits, Loader.AreDefaults, Loader.IsRulesArray, Brackets;
    if DocMembers(json, Strict).Some? {
      var members := DocMembers(json, Strict).value;
      DocScan(json, Strict, limit);
      forall k | 0 <= k < |members|
        ensures Loader.DocumentMember(limit)(members[k]) <==> Loader.DocumentMember(n)(members[k])
      {
        MemberWithin(members, k);
        FitsAlways(members[k].value, 1, limit);
        LoaderDefaults(members[k].value, limit, n);
        LoaderRules(members[k].value, limit, n);
      }
      AdmissibleSame(members, Loader.DocumentMember(limit), Loader.DocumentMember(n), Loader.DOCUMENT_KEYS);
    }
  }

  /** Scan and parse together accept exactly the documents that parse without a depth limit and
      whose brackets nest within it. */
  lemma ScanThenParse(json: Bytes, limits: Generator.GeneratorLimits, n: nat)
    requires n >= limits.maxNestingDepth
    ensures var deep := limits.(maxNestingDepth := n);
            !Exceeds(json, 0, 0, limits.maxNestingDepth) && Generator.Parses(json, limits) <==>
              Generator.Parses(json, deep) && 1 + MembersBrackets(DocMembers(json, OpenEnd).value) <= limits.maxNestingDepth
  {
    hide DocMembers, Exceeds, Generator.IsInventory, MembersBrackets;
    if DocMembers(json, OpenEnd).Some? { DocScan(json, OpenEnd, limits.maxNestingDepth); }
    if !Exceeds(json, 0, 0, limits.maxNestingDepth) { GeneratorDepth(json, limits, n); }
  }
}
