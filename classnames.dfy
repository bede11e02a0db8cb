/** `cn` of resources/js/utils/classnames.ts: joining the truthy class names with spaces. */
module ClassNames {
  import Text

  /** One argument of `cn`: a string, or one of the falsy non-strings it accepts. */
  datatype ClassArg = Str(s: string) | False | Undefined | Null

  /** JavaScript truthiness of an argument: only a non-empty string is truthy. */
  predicate Truthy(a: ClassArg)
  {
    a.Str? && a.s != ""
  }

  /** The `reduce` of line 5: each truthy string is appended after one space. */
  function Accumulate(args: seq<ClassArg>): string
  {
    if args == [] then ""
    else
      var acc := Accumulate(args[..|args| - 1]);
      var a := args[|args| - 1];
      if Truthy(a) then acc + " " + a.s else acc
  }

  /** `cn`: the accumulated string without its first character (the `slice(1)` of line 6). */
  function Cn(args: seq<ClassArg>): string
  {
    var acc := Accumulate(args);
    if acc == "" then "" else acc[1..]
  }

  /** The truthy strings, in argument order. */
  function Kept(args: seq<ClassArg>): (ks: seq<string>)
    ensures |ks| <= |args|
    ensures forall i :: 0 <= i < |ks| ==> ks[i] != ""
  {
    if args == [] then []
    else Kept(args[..|args| - 1]) + (if Truthy(args[|args| - 1]) then [args[|args| - 1].s] else [])
  }

  /** The accumulator is a space in front of the kept strings joined by spaces. */
  lemma {:induction false} AccumulateIsJoin(args: seq<ClassArg>)
    ensures Accumulate(args) == if Kept(args) == [] then "" else " " + Text.Join(Kept(args), " ")
  {
    if args != [] {
      var init := args[..|args| - 1];
      var a := args[|args| - 1];
      AccumulateIsJoin(init);
      if Truthy(a) {
        assert Kept(args) == Kept(init) + [a.s];
        if Kept(init) != [] {
          Text.JoinAppend(Kept(init), [a.s], " ");
          assert " " + Text.Join(Kept(args), " ") == (" " + Text.Join(Kept(init), " ")) + " " + a.s;
        } else {
          assert Kept(args) == [a.s];
        }
      } else {
        assert Kept(args) == Kept(init);
      }
    }
  }

  /** `cn` joins exactly the truthy arguments, in order, with single spaces. */
  lemma CnIsJoin(args: seq<ClassArg>)
    ensures Cn(args) == Text.Join(Kept(args), " ")
  {
    AccumulateIsJoin(args);
  }

  /** Falsy arguments are discarded: `cn` of the arguments equals `cn` of the truthy ones alone. */
  lemma {:induction false} FalsyDiscarded(args: seq<ClassArg>, i: nat)
    requires i < |args| && !Truthy(args[i])
    ensures Cn(args) == Cn(args[..i] + args[i + 1..])
  {
    KeptDrop(args, i);
    CnIsJoin(args);
    CnIsJoin(args[..i] + args[i + 1..]);
  }

  lemma {:induction false} KeptAppend(a: seq<ClassArg>, b: seq<ClassArg>)
    ensures Kept(a + b) == Kept(a) + Kept(b)
    decreases |b|
  {
    if b == [] {
      assert a + b == a;
    } else {
      var b' := b[..|b| - 1];
      assert (a + b)[..|a + b| - 1] == a + b';
      assert (a + b)[|a + b| - 1] == b[|b| - 1];
      KeptAppend(a, b');
    }
  }

  /** Removing one falsy argument keeps the same truthy strings. */
  lemma {:induction false} KeptDrop(args: seq<ClassArg>, i: nat)
    requires i < |args| && !Truthy(args[i])
    ensures Kept(args) == Kept(args[..i] + args[i + 1..])
  {
    var pre, x, post := args[..i], [args[i]], args[i + 1..];
    var mid := pre + x;
    assert args == mid + post;
    KeptAppend(mid, post);
    KeptAppend(pre, x);
    KeptAppend(pre, post);
    KeptFalsy(args[i]);
    assert Kept(mid) == Kept(pre);
  }

  lemma KeptFalsy(a: ClassArg)
    requires !Truthy(a)
    ensures Kept([a]) == []
  {
    assert [a][..0] == [];
  }

  /** No argument, or only falsy ones, gives "". */
  lemma {:induction false} AllFalsyEmpty(args: seq<ClassArg>)
    requires forall i :: 0 <= i < |args| ==> !Truthy(args[i])
    ensures Cn(args) == ""
  {
    CnIsJoin(args);
    AllFalsyKeptNothing(args);
  }

  lemma {:induction false} AllFalsyKeptNothing(args: seq<ClassArg>)
    requires forall i :: 0 <= i < |args| ==> !Truthy(args[i])
    ensures Kept(args) == []
  {
    if args != [] {
      AllFalsyKeptNothing(args[..|args| - 1]);
    }
  }

  /** A single non-empty class name comes back unchanged. */
  lemma Single(s: string)
    requires s != ""
    ensures Cn([Str(s)]) == s
  {
    assert [Str(s)][..0] == [];
    assert Accumulate([Str(s)]) == " " + s;
  }

  /**
   * The result starts with a space only when the first truthy string does: the accumulator's
   * own leading space is always removed.
   */
  lemma NoAddedLeadingSpace(args: seq<ClassArg>)
    requires Kept(args) != []
    ensures Cn(args) != "" && Cn(args)[0] == Kept(args)[0][0]
  {
    CnIsJoin(args);
    var ks := Kept(args);
    if |ks| > 1 {
      assert Text.Join(ks, " ") == ks[0] + " " + Text.Join(ks[1..], " ");
    }
  }
}
