/** Which packages a set of roots needs: the dependency closure over the package table. */
module Deps {
  type Package = string

  /** A package's own dependencies; a package without the field has an empty set. */
  type Table = map<Package, set<Package>>

  datatype Result = Found(packages: set<Package>) | KeyError

  ghost predicate Closed(db: Table, s: set<Package>) {
    forall p, d :: p in s && p in db && d in db[p] ==> d in s
  }

  /** Everything the roots can reach lies in the table. */
  ghost predicate Complete(db: Table, roots: set<Package>) {
    exists c: set<Package> :: roots <= c && c <= db.Keys && Closed(db, c)
  }

  /** One round: the packages and their direct dependencies, unless one is not in the table. */
  method Round(db: Table, deps: set<Package>) returns (r: Result)
    ensures r.KeyError? <==> !(deps <= db.Keys)
    ensures r.Found? ==> r.packages == deps + set p, d | p in deps && p in db && d in db[p] :: d
  {
    var resolved := deps;
    var todo := deps;
    while todo != {}
      invariant todo <= deps && deps - todo <= db.Keys
      invariant resolved == deps + set p, d | p in deps - todo && p in db && d in db[p] :: d
      decreases |todo|
    {
      var p :| p in todo;
      if p !in db {
        return KeyError;
      }
      resolved := resolved + db[p];
      todo := todo - {p};
    }
    r := Found(resolved);
  }

  /** `packages` is the least set that holds the roots and all dependencies of its members. */
  ghost predicate Least(db: Table, roots: set<Package>, packages: set<Package>) {
    forall c: set<Package> :: roots <= c && Closed(db, c) ==> packages <= c
  }

  function Members(roots: seq<Package>): set<Package> {
    set p | p in roots
  }

  /** Rounds until nothing is added. The roots come as a list, which never equals a set. */
  method ResolveDeps(db: Table, roots: seq<Package>) returns (r: Result)
    ensures r.KeyError? <==> !Complete(db, Members(roots))
    ensures r.Found? ==>
      Members(roots) <= r.packages <= db.Keys && Closed(db, r.packages) && Least(db, Members(roots), r.packages)
  {
    var wanted := Members(roots);
    var deps := wanted;
    var isList := true;
    while true
      invariant wanted <= deps && Least(db, wanted, deps)
      decreases |db| + 1 - |deps|, isList
    {
      var resolved := Round(db, deps);
      if resolved.KeyError? {
        return KeyError;
      }
      SizeBounds(deps, resolved.packages, db.Keys);
      if !isList && deps == resolved.packages {
        return Found(deps);
      }
      deps := resolved.packages;
      isList := false;
    }
  }

  lemma SizeBounds(a: set<Package>, b: set<Package>, keys: set<Package>)
    requires a <= b && a <= keys
    ensures |a| <= |keys| && |a| <= |b| && (a != b ==> |a| < |b|)
  {
    assert keys == a + (keys - a) && b == a + (b - a);
    if a != b {
      var x :| x in b && x !in a;
      assert x in b - a;
    }
  }
}
