/** Kernel arguments and the strings derived from them
    (`argument_t`, general/mpp.cpp:61-71; `kerArgs`, general/mpp.cpp:403-567;
    `kerAmpFromPtr`, general/mpp.cpp:739-764).

    An argument of an `MFEM_KERNEL` falls in one of three groups:
    - dispatch (compile-time): `const` and neither pointer nor reference; its
      value becomes a template argument of the just-in-time compiled kernel;
    - runtime: neither `const` nor pointer nor reference, passed by value;
    - pointer-like: a pointer or a reference, renamed `_name` in the
      signature and re-bound to `name` inside the body.
    Each derived string is a comma list with at most one entry per argument;
    `Collect` picks the entries of one string, in argument order. */
module Arguments {
  import opened Outcomes
  import opened Text

  /** `argument_t`; `has_default_value` and `default_value` are one optional
      value. */
  datatype Argument = Argument(
    typeName: string,
    name: string,
    isPtr: bool,
    isAmp: bool,
    isConst: bool,
    isRestrict: bool,
    isTpl: bool,
    defaultValue: Option<nat>,
    range: seq<int>)

  /** `argument_t()`: no type, no name, no qualifier. */
  const Blank: Argument := Argument("", "", false, false, false, false, false, None, [])

  predicate IsPointerLike(a: Argument) { a.isPtr || a.isAmp }
  predicate IsDispatch(a: Argument) { a.isConst && !IsPointerLike(a) }
  predicate IsRuntime(a: Argument) { !a.isConst && !IsPointerLike(a) }
  predicate IsDouble(a: Argument) { a.typeName == "double" }
  predicate HasDefault(a: Argument) { a.defaultValue.Some? }

  // ---------------------------------------------------------------------------
  // One entry per argument and derived string

  /** `Tformat`: the `printf` format of a dispatch value; a `double` without
      default travels as its 64-bit pattern in hexadecimal. */
  function TformatEntry(a: Argument): Option<string> {
    if !IsDispatch(a) then None
    else if !HasDefault(a) && IsDouble(a) then Some("0x%lx")
    else Some("%ld")
  }

  /** `Targs`: the name a dispatch value is hashed and instantiated under
      (`u<name>` for a `double`). The `_` the source adds for pointer-like
      arguments never applies here: a dispatch argument is not one. */
  function TargsEntry(a: Argument): Option<string> {
    if !IsDispatch(a) then None
    else Some((if IsDouble(a) then "u" else "") + a.name)
  }

  /** `Tparams`: the template parameter declared for a dispatch value without
      default (`const uint64_t t<name>` for a `double`). */
  function TparamsEntry(a: Argument): Option<string> {
    if !IsDispatch(a) || HasDefault(a) then None
    else Some("const " + (if IsDouble(a) then "uint64_t" else a.typeName) + " "
              + (if IsDouble(a) then "t" else "") + a.name)
  }

  /** `params`: the runtime parameter list of the generated kernel. */
  function ParamsEntry(a: Argument): Option<string> {
    if IsRuntime(a) then Some(a.typeName + " " + a.name)
    else if IsDispatch(a) && HasDefault(a) then Some(" const " + a.typeName + " " + a.name)
    else if IsPointerLike(a) then Some((if a.isConst then "const " else "") + a.typeName + " *_" + a.name)
    else None
  }

  /** `args`: the arguments the host passes to the compiled kernel. */
  function ArgsEntry(a: Argument): Option<string> {
    if IsRuntime(a) then Some(a.name)
    else if IsDispatch(a) && HasDefault(a) then Some("0")
    else if IsPointerLike(a) then Some((if a.isAmp then "&" else "") + "_" + a.name)
    else None
  }

  /** `args_wo_amp`: the same arguments inside the kernel, where references
      are already pointers. */
  function ArgsWoAmpEntry(a: Argument): Option<string> {
    if IsRuntime(a) then Some(a.name)
    else if IsDispatch(a) && HasDefault(a) then Some("0")
    else if IsPointerLike(a) then Some("_" + a.name)
    else None
  }

  /** `d2u`: inside the kernel, the `double` back from its 64-bit pattern. */
  function D2uEntry(a: Argument): Option<string> {
    if !IsDispatch(a) || !IsDouble(a) then None
    else Some("\n\tconst union_du union_" + a.name + " = (union_du){u:t" + a.name + "};"
              + "\n\tconst double " + a.name + " = union_" + a.name + ".d;")
  }

  /** `u2d`: in the host, the 64-bit pattern of a `double` dispatch value. */
  function U2dEntry(a: Argument): Option<string> {
    if !IsDispatch(a) || !IsDouble(a) then None
    else Some("\n\tconst uint64_t u" + a.name + " = (union_du){" + a.name + "}.u;")
  }

  /** `kerAmpFromPtr`: the line re-binding a pointer-like argument's own name
      to the renamed parameter. */
  function AliasLine(a: Argument): Option<string> {
    if !IsPointerLike(a) then None
    else if a.isConst then
      Some("\n\tconst " + a.typeName + (if a.isAmp then "&" else "*") + a.name
           + " = " + (if a.isAmp then "*" else " ") + " _" + a.name + ";")
    else
      Some("\n\t" + a.typeName + (if a.isAmp then "&" else "*") + a.name
           + " = " + (if a.isAmp then "*" else " ") + " _" + a.name + ";")
  }

  // ---------------------------------------------------------------------------
  // Collecting entries

  /** The entries `f` gives for `args`, in argument order, skipping `None`. */
  function Collect(args: seq<Argument>, f: Argument -> Option<string>): seq<string> {
    if args == [] then []
    else Collect(args[..|args| - 1], f) + (match f(args[|args| - 1]) case Some(e) => [e] case None => [])
  }

  /** Number of arguments satisfying `p`. */
  function Count(args: seq<Argument>, p: Argument -> bool): nat {
    if args == [] then 0 else Count(args[..|args| - 1], p) + (if p(args[|args| - 1]) then 1 else 0)
  }

  function Concat(xs: seq<string>): string {
    if xs == [] then [] else Concat(xs[..|xs| - 1]) + xs[|xs| - 1]
  }

  lemma ConcatSnoc(xs: seq<string>, x: string)
    ensures Concat(xs + [x]) == Concat(xs) + x
  {
    assert (xs + [x])[..|xs|] == xs;
  }

  /** The derived strings of `kernel_t` that `kerArgs` rebuilds. */
  datatype Derived = Derived(
    tformat: string, targs: string, tparams: string,
    params: string, args: string, argsWoAmp: string,
    d2u: string, u2d: string)

  const Cleared: Derived := Derived("", "", "", "", "", "", "", "")

  /** The reference meaning of `kerArgs`: every string is the comma list of
      its entries (`d2u`/`u2d` the plain concatenation); a single-source
      kernel appends its own template parameters to `Tparams`. */
  function Derive(args: seq<Argument>, singleSource: bool, tparamsSrc: string): Derived {
    var tparams := Listing(Collect(args, TparamsEntry));
    Derived(
      Listing(Collect(args, TformatEntry)),
      Listing(Collect(args, TargsEntry)),
      if singleSource then CommaAppend(tparams, tparamsSrc) else tparams,
      Listing(Collect(args, ParamsEntry)),
      Listing(Collect(args, ArgsEntry)),
      Listing(Collect(args, ArgsWoAmpEntry)),
      Concat(Collect(args, D2uEntry)),
      Concat(Collect(args, U2dEntry)))
  }

  /** Appending one argument appends its entry, if any. */
  lemma CollectSnoc(args: seq<Argument>, a: Argument, f: Argument -> Option<string>)
    ensures Collect(args + [a], f)
         == Collect(args, f) + (match f(a) case Some(e) => [e] case None => [])
  {
    assert (args + [a])[..|args|] == args;
  }

  /** `Grow` adds an argument's entry to a comma list, `Attach` to a plain
      concatenation; an argument without an entry leaves them alone. */
  function Grow(s: string, e: Option<string>): string {
    match e
    case Some(x) => CommaAppend(s, x)
    case None => s
  }

  function Attach(s: string, e: Option<string>): string {
    match e
    case Some(x) => s + x
    case None => s
  }

  /** `f` applied to every argument, in order. */
  function Map<T>(args: seq<Argument>, f: Argument -> T): (r: seq<T>)
    ensures |r| == |args|
    ensures forall k :: 0 <= k < |args| ==> r[k] == f(args[k])
  {
    if args == [] then [] else Map(args[..|args| - 1], f) + [f(args[|args| - 1])]
  }

  lemma MapSnoc<T>(args: seq<Argument>, a: Argument, f: Argument -> T)
    ensures Map(args + [a], f) == Map(args, f) + [f(a)]
  {
    assert (args + [a])[..|args|] == args;
  }

  lemma GrowSnoc(args: seq<Argument>, a: Argument, f: Argument -> Option<string>)
    ensures Listing(Collect(args + [a], f)) == Grow(Listing(Collect(args, f)), f(a))
    ensures Concat(Collect(args + [a], f)) == Attach(Concat(Collect(args, f)), f(a))
  {
    CollectSnoc(args, a, f);
    var xs := Collect(args, f);
    if f(a).Some? {
      assert (xs + [f(a).value])[..|xs|] == xs;
    } else {
      assert xs + [] == xs;
    }
  }

  /** The derived strings after one more argument: each string gets that
      argument's entry, if it has one. */
  function DeriveNext(d: Derived, a: Argument): Derived {
    Derived(Grow(d.tformat, TformatEntry(a)), Grow(d.targs, TargsEntry(a)), Grow(d.tparams, TparamsEntry(a)),
            Grow(d.params, ParamsEntry(a)), Grow(d.args, ArgsEntry(a)), Grow(d.argsWoAmp, ArgsWoAmpEntry(a)),
            Attach(d.d2u, D2uEntry(a)), Attach(d.u2d, U2dEntry(a)))
  }

  /** Deriving the strings one argument at a time: the reference for the
      loop of `kerArgs`. */
  lemma DeriveSnoc(args: seq<Argument>, a: Argument)
    ensures Derive(args + [a], false, "") == DeriveNext(Derive(args, false, ""), a)
  {
    GrowSnoc(args, a, TformatEntry);
    GrowSnoc(args, a, TargsEntry);
    GrowSnoc(args, a, TparamsEntry);
    GrowSnoc(args, a, ParamsEntry);
    GrowSnoc(args, a, ArgsEntry);
    GrowSnoc(args, a, ArgsWoAmpEntry);
    GrowSnoc(args, a, D2uEntry);
    GrowSnoc(args, a, U2dEntry);
  }

  /** The strings built one argument at a time, as the loop of `kerArgs`
      does. */
  function DeriveFrom(args: seq<Argument>): Derived {
    if args == [] then Cleared else DeriveNext(DeriveFrom(args[..|args| - 1]), args[|args| - 1])
  }

  /** Building the strings one argument at a time gives the comma lists
      of `Derive`. */
  lemma {:induction false} DeriveFromIsDerive(args: seq<Argument>)
    ensures DeriveFrom(args) == Derive(args, false, "")
  {
    if args == [] {
      DeriveEmpty();
    } else {
      var front, last := args[..|args| - 1], args[|args| - 1];
      assert args == front + [last];
      calc {
        DeriveFrom(args);
        DeriveNext(DeriveFrom(front), last);
        { DeriveFromIsDerive(front); }
        DeriveNext(Derive(front, false, ""), last);
        { DeriveSnoc(front, last); }
        Derive(front + [last], false, "");
      }
    }
  }

  /** No argument, no strings. */
  lemma DeriveEmpty()
    ensures Derive([], false, "") == Cleared
  {
  }

  lemma CountSnoc(args: seq<Argument>, a: Argument, p: Argument -> bool)
    ensures Count(args + [a], p) == Count(args, p) + (if p(a) then 1 else 0)
  {
    assert (args + [a])[..|args|] == args;
  }

  /** The number of entries is the number of arguments that have one. */
  lemma {:induction false} CollectCount(args: seq<Argument>, f: Argument -> Option<string>, p: Argument -> bool)
    requires forall a :: f(a).Some? <==> p(a)
    ensures |Collect(args, f)| == Count(args, p)
  {
    if args != [] {
      CollectCount(args[..|args| - 1], f, p);
    }
  }

  /** Every argument satisfies exactly one of the two predicates. */
  lemma {:induction false} CountSplit(args: seq<Argument>, p: Argument -> bool, q: Argument -> bool)
    requires forall a :: p(a) != q(a)
    ensures Count(args, p) + Count(args, q) == |args|
  {
    if args != [] {
      CountSplit(args[..|args| - 1], p, q);
    }
  }

  /** Dispatch arity: `Tformat` and `Targs` have one entry per dispatch
      argument, so the format string and the hashed values line up. */
  lemma DispatchArity(args: seq<Argument>)
    ensures |Collect(args, TformatEntry)| == Count(args, IsDispatch)
    ensures |Collect(args, TargsEntry)| == Count(args, IsDispatch)
  {
    CollectCount(args, TformatEntry, IsDispatch);
    CollectCount(args, TargsEntry, IsDispatch);
  }

  predicate IsTemplateParameter(a: Argument) { IsDispatch(a) && !HasDefault(a) }
  predicate IsCallArgument(a: Argument) { !IsTemplateParameter(a) }

  /** `Tparams` declares exactly the dispatch arguments without default;
      every other argument is passed at run time, once in each of `params`,
      `args` and `args_wo_amp`, so the three lists line up. */
  lemma CallArity(args: seq<Argument>)
    ensures |Collect(args, TparamsEntry)| == Count(args, IsTemplateParameter)
    ensures |Collect(args, ParamsEntry)| == |args| - Count(args, IsTemplateParameter)
    ensures |Collect(args, ArgsEntry)| == |args| - Count(args, IsTemplateParameter)
    ensures |Collect(args, ArgsWoAmpEntry)| == |args| - Count(args, IsTemplateParameter)
  {
    CollectCount(args, TparamsEntry, IsTemplateParameter);
    CollectCount(args, ParamsEntry, IsCallArgument);
    CollectCount(args, ArgsEntry, IsCallArgument);
    CollectCount(args, ArgsWoAmpEntry, IsCallArgument);
    CountSplit(args, IsTemplateParameter, IsCallArgument);
  }

  predicate IsDispatchDouble(a: Argument) { IsDispatch(a) && IsDouble(a) }

  lemma {:induction false} ConcatEmpty(xs: seq<string>)
    requires forall k :: 0 <= k < |xs| ==> xs[k] != []
    ensures Concat(xs) == [] <==> xs == []
  {
    if xs != [] {
      assert |Concat(xs)| >= |xs[|xs| - 1]|;
    }
  }

  lemma {:induction false} CountPositive(args: seq<Argument>, p: Argument -> bool)
    ensures Count(args, p) > 0 <==> exists i :: 0 <= i < |args| && p(args[i])
  {
    if args != [] {
      var front := args[..|args| - 1];
      CountPositive(front, p);
      if exists i :: 0 <= i < |front| && p(front[i]) {
        var i :| 0 <= i < |front| && p(front[i]);
        assert args[i] == front[i];
      }
      if exists i :: 0 <= i < |args| && p(args[i]) {
        var i :| 0 <= i < |args| && p(args[i]);
        if i < |front| {
          assert front[i] == args[i];
        }
      }
    }
  }

  lemma {:induction false} CollectNonEmpty(args: seq<Argument>, f: Argument -> Option<string>)
    requires forall a :: f(a).Some? ==> f(a).value != []
    ensures forall k :: 0 <= k < |Collect(args, f)| ==> Collect(args, f)[k] != []
  {
    if args != [] {
      CollectNonEmpty(args[..|args| - 1], f);
    }
  }

  lemma ConcatNonEmpty(args: seq<Argument>, f: Argument -> Option<string>, p: Argument -> bool)
    requires forall a :: f(a).Some? <==> p(a)
    requires forall a :: f(a).Some? ==> f(a).value != []
    ensures Concat(Collect(args, f)) != [] <==> exists i :: 0 <= i < |args| && p(args[i])
  {
    CollectNonEmpty(args, f);
    ConcatEmpty(Collect(args, f));
    CollectCount(args, f, p);
    CountPositive(args, p);
  }

  /** `d2u` and `u2d` are non-empty exactly when some dispatch argument is a
      `double`. */
  lemma DoubleConversions(args: seq<Argument>)
    ensures Concat(Collect(args, D2uEntry)) != [] <==> exists i :: 0 <= i < |args| && IsDispatchDouble(args[i])
    ensures Concat(Collect(args, U2dEntry)) != [] <==> exists i :: 0 <= i < |args| && IsDispatchDouble(args[i])
  {
    ConcatNonEmpty(args, D2uEntry, IsDispatchDouble);
    ConcatNonEmpty(args, U2dEntry, IsDispatchDouble);
  }

  /** Every pointer-like argument, and nothing else, gets one alias line in
      the kernel body; the line binds its own name to the `_name` under
      which `args_wo_amp` passes it. */
  lemma AliasesMatchPointers(args: seq<Argument>)
    ensures |Collect(args, AliasLine)| == Count(args, IsPointerLike)
    ensures forall a :: AliasLine(a).Some? ==>
      ArgsWoAmpEntry(a) == Some("_" + a.name) && ParamsEntry(a).Some?
      && var l := AliasLine(a).value; l[|l| - |a.name| - 3..] == " _" + a.name + ";"
  {
    CollectCount(args, AliasLine, IsPointerLike);
    forall a | AliasLine(a).Some?
      ensures var l := AliasLine(a).value; l[|l| - |a.name| - 3..] == " _" + a.name + ";"
    {
      var amp := if a.isAmp then "&" else "*";
      var deref := if a.isAmp then "*" else " ";
      var lead := if a.isConst then "\n\tconst " else "\n\t";
      EndsWithThree(lead + a.typeName + amp + a.name + " = " + deref, " _", a.name, ";");
    }
  }

  lemma EndsWithThree(x: string, y: string, z: string, w: string)
    ensures var l := x + y + z + w; l[|l| - |y| - |z| - |w|..] == y + z + w
  {
    var l := x + y + z + w;
    assert l == x + (y + z + w);
  }
}
