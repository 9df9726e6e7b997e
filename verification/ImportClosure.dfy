/** The import closure of the staged heartbeat helper: a worklist over the emitted
    modules that follows relative static imports. */
module ImportClosure {

  datatype Option<T> = None | Some(value: T)

  /** A path relative to the output root, component by component. */
  type Path = seq<string>

  /** What the parser reports of one module. */
  datatype Syntax = Syntax(dynamic: bool, imports: seq<string>)

  // --- resolution of one specifier

  predicate StartsWith(s: string, prefix: string) { |prefix| <= |s| && s[..|prefix|] == prefix }

  predicate EndsWith(s: string, suffix: string) { |suffix| <= |s| && s[|s| - |suffix|..] == suffix }

  function Components(s: string, current: string): seq<string>
    decreases |s|
  {
    if s == "" then [current]
    else if s[0] == '/' then [current] + Components(s[1..], "")
    else Components(s[1..], current + [s[0]])
  }

  /** Lexical normalisation: empty and `.` components vanish, `..` takes back the
      component before it, or stays when there is none to take back. */
  function Normalize(stack: Path, parts: seq<string>): Path
    decreases |parts|
  {
    if parts == [] then stack
    else if parts[0] == "" || parts[0] == "." then Normalize(stack, parts[1..])
    else if parts[0] == ".." && stack != [] && stack[|stack| - 1] != ".." then Normalize(stack[..|stack| - 1], parts[1..])
    else Normalize(stack + [parts[0]], parts[1..])
  }

  function Parent(p: Path): Path { if p == [] then [] else p[..|p| - 1] }

  datatype Import = Builtin | Unsupported | Child(path: Path)

  function Classify(relative: Path, specifier: string): Import {
    if StartsWith(specifier, "node:") then Builtin
    else if !StartsWith(specifier, ".") || !EndsWith(specifier, ".js") then Unsupported
    else
      var child := Normalize(Parent(relative), Components(specifier, ""));
      if ".." in child then Unsupported else Child(child)
  }

  // ---------------------------------------------------------------------------
  // The graph, for any resolution of specifiers and independently of the worklist

  type Resolver = (Path, string) -> Import

  predicate Imports(resolve: Resolver, parsed: map<Path, Syntax>, m: Path, c: Path) {
    m in parsed && exists i | 0 <= i < |parsed[m].imports| :: resolve(m, parsed[m].imports[i]) == Child(c)
  }

  ghost predicate ReachedIn(resolve: Resolver, parsed: map<Path, Syntax>, entry: Path, m: Path, steps: nat)
    decreases steps
  {
    if steps == 0 then m == entry
    else exists k :: ReachedIn(resolve, parsed, entry, k, steps - 1) && Imports(resolve, parsed, k, m)
  }

  ghost predicate Reachable(resolve: Resolver, parsed: map<Path, Syntax>, entry: Path, m: Path) {
    exists steps :: ReachedIn(resolve, parsed, entry, m, steps)
  }

  /** A module keeps the rules: emitted, parsed, free of dynamic loading, and every
      import is builtin or a relative one that is emitted. */
  predicate Clean(resolve: Resolver, parsed: map<Path, Syntax>, emitted: set<Path>, m: Path) {
    && m in emitted && m in parsed && !parsed[m].dynamic
    && forall i | 0 <= i < |parsed[m].imports| ::
         var t := resolve(m, parsed[m].imports[i]);
         t.Builtin? || (t.Child? && t.path in emitted)
  }

  lemma ReachableStep(resolve: Resolver, parsed: map<Path, Syntax>, entry: Path, m: Path, c: Path)
    requires Reachable(resolve, parsed, entry, m) && Imports(resolve, parsed, m, c)
    ensures Reachable(resolve, parsed, entry, c)
  {
    var steps: nat :| ReachedIn(resolve, parsed, entry, m, steps);
    assert ReachedIn(resolve, parsed, entry, c, steps + 1);
  }

  lemma EntryReachable(resolve: Resolver, parsed: map<Path, Syntax>, entry: Path)
    ensures Reachable(resolve, parsed, entry, entry)
  {
    assert ReachedIn(resolve, parsed, entry, entry, 0);
  }

  /** A set that holds the entry and is closed under imports holds all that is reachable. */
  lemma {:induction false} ClosedHoldsReachable(resolve: Resolver, parsed: map<Path, Syntax>, entry: Path, closed: set<Path>, m: Path, steps: nat)
    requires entry in closed
    requires forall k, c | k in closed && Imports(resolve, parsed, k, c) :: c in closed
    requires ReachedIn(resolve, parsed, entry, m, steps)
    ensures m in closed
    decreases steps
  {
    if steps > 0 {
      var k :| ReachedIn(resolve, parsed, entry, k, steps - 1) && Imports(resolve, parsed, k, m);
      ClosedHoldsReachable(resolve, parsed, entry, closed, k, steps - 1);
    }
  }

  /** Succeeds exactly when every reachable module keeps the rules, and then
      yields exactly the reachable modules. */
  method ValidateImportClosure(resolve: Resolver, parsed: map<Path, Syntax>, emitted: set<Path>, entry: Path) returns (r: Option<set<Path>>)
    ensures r.Some? ==> forall m :: m in r.value <==> Reachable(resolve, parsed, entry, m)
    ensures r.Some? <==> forall m | Reachable(resolve, parsed, entry, m) :: Clean(resolve, parsed, emitted, m)
  {
    var pending := [entry];
    var reached: set<Path> := {};
    EntryReachable(resolve, parsed, entry);
    while pending != []
      invariant forall p <- pending :: Reachable(resolve, parsed, entry, p)
      invariant forall p <- reached :: Reachable(resolve, parsed, entry, p) && Clean(resolve, parsed, emitted, p)
      invariant entry in reached || entry in pending
      invariant forall k, c | k in reached && Imports(resolve, parsed, k, c) :: c in reached || c in pending
      decreases emitted - reached, |pending|
    {
      var relative := pending[|pending| - 1];
      ghost var before := pending;
      pending := pending[..|pending| - 1];
      assert before == pending + [relative];
      if relative !in reached {
        if relative !in emitted {
          return None;
        }
        if relative !in parsed || parsed[relative].dynamic {
          return None;
        }
        var imports := parsed[relative].imports;
        ghost var rest := pending;
        for i := 0 to |imports|
          invariant rest <= pending
          invariant forall p <- pending :: Reachable(resolve, parsed, entry, p)
          invariant forall j | 0 <= j < i ::
                      var t := resolve(relative, imports[j]);
                      t.Builtin? || (t.Child? && t.path in emitted && t.path in pending)
        {
          match resolve(relative, imports[i]) {
            case Builtin =>
            case Unsupported =>
              assert !Clean(resolve, parsed, emitted, relative);
              return None;
            case Child(child) =>
              if child !in emitted {
                assert !Clean(resolve, parsed, emitted, relative);
                return None;
              }
              assert Imports(resolve, parsed, relative, child);
              ReachableStep(resolve, parsed, entry, relative, child);
              pending := pending + [child];
          }
        }
        reached := reached + {relative};
      }
    }
    forall m | Reachable(resolve, parsed, entry, m) ensures m in reached {
      var steps: nat :| ReachedIn(resolve, parsed, entry, m, steps);
      ClosedHoldsReachable(resolve, parsed, entry, reached, m, steps);
    }
    r := Some(reached);
  }

  // ---------------------------------------------------------------------------
  // The resolution that the closure uses

  predicate Plain(p: Path) { forall i | 0 <= i < |p| :: p[i] != "" && p[i] != "." }

  lemma {:induction false} NormalizedPlain(stack: Path, parts: seq<string>)
    requires Plain(stack)
    ensures Plain(Normalize(stack, parts))
    decreases |parts|
  {
    if parts != [] {
      if parts[0] == "" || parts[0] == "." {
        NormalizedPlain(stack, parts[1..]);
      } else if parts[0] == ".." && stack != [] && stack[|stack| - 1] != ".." {
        NormalizedPlain(stack[..|stack| - 1], parts[1..]);
      } else {
        NormalizedPlain(stack + [parts[0]], parts[1..]);
      }
    }
  }

  predicate Within(p: Path) { Plain(p) && ".." !in p }

  /** Whatever the specifier, an import is resolved to a path of real components
      below the output root or to none at all. */
  lemma ResolvedStaysWithin(relative: Path, specifier: string)
    requires Plain(relative)
    requires Classify(relative, specifier).Child?
    ensures Within(Classify(relative, specifier).path)
  {
    NormalizedPlain(Parent(relative), Components(specifier, ""));
  }

  /** So following imports never leaves the output root, however many are followed. */
  lemma {:induction false} ReachableStaysWithin(parsed: map<Path, Syntax>, entry: Path, m: Path, steps: nat)
    requires Within(entry)
    requires ReachedIn(Classify, parsed, entry, m, steps)
    ensures Within(m)
    decreases steps
  {
    if steps > 0 {
      var k :| ReachedIn(Classify, parsed, entry, k, steps - 1) && Imports(Classify, parsed, k, m);
      ReachableStaysWithin(parsed, entry, k, steps - 1);
      var i :| 0 <= i < |parsed[k].imports| && Classify(k, parsed[k].imports[i]) == Child(m);
      ResolvedStaysWithin(k, parsed[k].imports[i]);
    }
  }

  // --- what it resolves to

  predicate Name(s: string) { s != "" && s != "." && s != ".." && '/' !in s }

  /** `../` so many times, or `./`, and then the names. */
  function Climbed(ups: nat): seq<string> { seq(ups, _ => "..") }

  function Steps(ups: nat, names: seq<string>): seq<string> { (if ups == 0 then ["."] else Climbed(ups)) + names }

  function Slashed(parts: seq<string>): string
    requires parts != []
  {
    if |parts| == 1 then parts[0] else parts[0] + "/" + Slashed(parts[1..])
  }

  lemma {:induction false} OneComponent(s: string, current: string)
    requires '/' !in s
    ensures Components(s, current) == [current + s]
    decreases |s|
  {
    if s == "" {
      assert current + s == current;
    } else {
      assert s[0] in s && current + s == (current + [s[0]]) + s[1..];
      OneComponent(s[1..], current + [s[0]]);
    }
  }

  lemma {:induction false} FirstComponent(s: string, rest: string, current: string)
    requires '/' !in s
    ensures Components(s + "/" + rest, current) == [current + s] + Components(rest, "")
    decreases |s|
  {
    var all := s + "/" + rest;
    if s == "" {
      assert all == "/" + rest && all[1..] == rest && current + s == current;
    } else {
      assert s[0] in s && all[1..] == s[1..] + "/" + rest && current + s == (current + [s[0]]) + s[1..];
      FirstComponent(s[1..], rest, current + [s[0]]);
    }
  }

  lemma {:induction false} ComponentsOf(parts: seq<string>)
    requires parts != [] && forall p <- parts :: '/' !in p
    ensures Components(Slashed(parts), "") == parts
  {
    assert parts[0] in parts && "" + parts[0] == parts[0];
    if |parts| == 1 {
      OneComponent(parts[0], "");
    } else {
      FirstComponent(parts[0], Slashed(parts[1..]), "");
      ComponentsOf(parts[1..]);
      assert parts == [parts[0]] + parts[1..];
    }
  }

  lemma {:induction false} NamesDescend(stack: Path, names: seq<string>)
    requires forall n <- names :: Name(n)
    ensures Normalize(stack, names) == stack + names
    decreases |names|
  {
    if names != [] {
      assert names[0] in names;
      NamesDescend(stack + [names[0]], names[1..]);
      assert stack + [names[0]] + names[1..] == stack + names;
    } else {
      assert stack + names == stack;
    }
  }

  lemma {:induction false} DotsClimb(stack: Path, ups: nat, names: seq<string>)
    requires ups <= |stack| && ".." !in stack
    ensures Normalize(stack, Climbed(ups) + names) == Normalize(stack[..|stack| - ups], names)
    decreases ups
  {
    var parts := Climbed(ups) + names;
    if ups == 0 {
      assert parts == names && stack[..|stack|] == stack;
    } else {
      var n := |stack|;
      assert parts[0] == ".." && parts[1..] == Climbed(ups - 1) + names;
      assert stack[n - 1] in stack;
      DotsClimb(stack[..n - 1], ups - 1, names);
      assert stack[..n - 1][..n - 1 - (ups - 1)] == stack[..n - ups];
    }
  }

  /** Once the path starts with `..` nothing takes that back. */
  lemma {:induction false} OutsideStays(stack: Path, parts: seq<string>)
    requires stack != [] && stack[0] == ".."
    ensures var p := Normalize(stack, parts); p != [] && p[0] == ".."
    decreases |parts|
  {
    if parts != [] {
      if parts[0] == "" || parts[0] == "." {
        OutsideStays(stack, parts[1..]);
      } else if parts[0] == ".." && stack[|stack| - 1] != ".." {
        OutsideStays(stack[..|stack| - 1], parts[1..]);
      } else {
        OutsideStays(stack + [parts[0]], parts[1..]);
      }
    }
  }

  lemma {:induction false} DotsEscape(stack: Path, ups: nat, names: seq<string>)
    requires ups > |stack| && ".." !in stack
    ensures ".." in Normalize(stack, Climbed(ups) + names)
    decreases ups
  {
    var parts, n := Climbed(ups) + names, |stack|;
    assert parts[0] == ".." && parts[1..] == Climbed(ups - 1) + names;
    if n > 0 {
      assert stack[n - 1] in stack;
      DotsEscape(stack[..n - 1], ups - 1, names);
    } else {
      assert stack + [".."] == [".."];
      OutsideStays([".."], parts[1..]);
      assert Normalize(stack, parts)[0] in Normalize(stack, parts);
    }
  }

  /** A relative specifier that climbs so many directories and then descends along names
      resolves to just that, and is unsupported exactly when it climbs out of the root. */
  lemma RelativeResolves(relative: Path, ups: nat, names: seq<string>)
    requires ".." !in relative && names != [] && forall n <- names :: Name(n)
    requires var s := Slashed(Steps(ups, names)); StartsWith(s, ".") && EndsWith(s, ".js")
    ensures var parent := Parent(relative);
            Classify(relative, Slashed(Steps(ups, names))) ==
            if ups <= |parent| then Child(parent[..|parent| - ups] + names) else Unsupported
  {
    var parent, parts := Parent(relative), Steps(ups, names);
    assert forall p <- parts :: '/' !in p;
    ComponentsOf(parts);
    if ups == 0 {
      assert parts[1..] == names && parent[..|parent|] == parent;
      NamesDescend(parent, names);
      assert Normalize(parent, parts) == Normalize(parent, names);
    } else if ups <= |parent| {
      DotsClimb(parent, ups, names);
      NamesDescend(parent[..|parent| - ups], names);
    } else {
      DotsEscape(parent, ups, names);
    }
  }

  /** Nothing but a relative `.js` specifier is followed, and nothing but `node:` is
      taken for built in. */
  lemma KindsExactly(relative: Path, specifier: string)
    ensures Classify(relative, specifier).Builtin? <==> |specifier| >= 5 && specifier[..5] == "node:"
    ensures Classify(relative, specifier).Child? ==>
              |specifier| >= 3 && specifier[0] == '.' && specifier[|specifier| - 3..] == ".js"
  {}
}
