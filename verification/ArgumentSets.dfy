/** The different strings among a command's arguments, and how counts over them grow by one
    more argument. */
module ArgumentSets {

  function ArgsFrom(args: seq<string>, lo: nat): set<string> {
    set i | lo <= i < |args| :: args[i]
  }

  lemma ArgsFromSnoc(args: seq<string>, lo: nat, i: nat)
    requires lo <= i < |args|
    ensures ArgsFrom(args[..i + 1], lo) == ArgsFrom(args[..i], lo) + {args[i]}
  {
    var a, b := args[..i], args[..i + 1];
    forall k ensures k in ArgsFrom(b, lo) <==> k in ArgsFrom(a, lo) + {args[i]} {
      if k in ArgsFrom(a, lo) {
        var j :| lo <= j < |a| && a[j] == k;
        assert b[j] == k;
      }
      if k == args[i] {
        assert b[i] == k;
      }
      if k in ArgsFrom(b, lo) {
        var j :| lo <= j < |b| && b[j] == k;
        assert j < i ==> a[j] == k;
      }
    }
  }

  lemma NoArgsYet(args: seq<string>, lo: nat)
    requires lo <= |args|
    ensures ArgsFrom(args[..lo], lo) == {}
  {
  }

  /** One more name adds to the new ones unless it was stored or given before. */
  lemma NewSnoc(names: set<string>, k: string, stored: set<string>)
    ensures |(names + {k}) - stored| == |names - stored| + if k in stored + names then 0 else 1
  {
    if k in stored + names {
      assert (names + {k}) - stored == names - stored;
    } else {
      assert (names + {k}) - stored == (names - stored) + {k};
    }
  }

  /** One more name adds to the stored ones if it is stored and was not given before. */
  lemma CommonSnoc(names: set<string>, k: string, stored: set<string>)
    ensures |stored * (names + {k})| == |stored * names| + if k in stored - names then 1 else 0
  {
    if k in stored - names {
      assert stored * (names + {k}) == stored * names + {k};
    } else {
      assert stored * (names + {k}) == stored * names;
    }
  }

  lemma SubsetSameSize(a: set<string>, b: set<string>)
    requires a <= b && |a| == |b|
    ensures a == b
  {
    if x :| x in b && x !in a {
      assert a <= b - {x};
      SubsetSize(a, b - {x});
    }
  }

  lemma {:induction false} SubsetSize(a: set<string>, b: set<string>)
    requires a <= b
    ensures |a| <= |b|
    decreases a
  {
    if x :| x in a {
      SubsetSize(a - {x}, b - {x});
    }
  }
}
