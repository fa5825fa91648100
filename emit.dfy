/** The state one directive carries (`template_t`, `kernel_t`,
    general/mpp.cpp:75-106) and the fixed texts the preprocessor writes
    around the code it copies: the file header, the prologue and epilogue
    of an `MFEM_KERNEL`, and the launcher of an `MFEM_TEMPLATE` with its
    table of specialisations. */
module Emit {
  import opened Outcomes
  import opened Text
  import opened Hashing
  import opened Ranges
  import opened Arguments

  /** `template_t`: what `MFEM_TEMPLATE` collects from a kernel signature. */
  datatype Template = Template(
    args: string,             // names of the runtime arguments, ", "-separated
    params: string,           // the launcher's parameter list
    targs: string,            // names of the ranged arguments, ", "-separated
    tparams: string,          // template parameters of the specialised kernel
    ranges: seq<seq<int>>,    // one value list per ranged argument
    returnType: string,
    signature: string)        // the specialised kernel's parameter list and `)`

  const EmptyTemplate: Template := Template("", "", "", "", [], "", "")

  /** `kernel_t`: the flags of the open directives and the kernel strings.
      Its `embed` text is kept beside it (`Context.embed`), since it is the
      one part that every copied character may change. */
  datatype Kernel = Kernel(
    embedOn: bool,            // `__embed`
    kernelOn: bool,           // `__kernel`
    templateOn: bool,         // `__template`
    singleSource: bool,       // `__single_source`
    xcc: string,
    dirname: string,
    name: string,
    tparamsSrc: string,       // `Tparams_src`
    derived: Derived,         // `Tformat`, `Targs`, `Tparams`, `params`, ...
    tpl: Template)

  const InitialKernel: Kernel :=
    Kernel(false, false, false, false, "", "", "", "", Cleared, EmptyTemplate)

  // ---------------------------------------------------------------------------
  // Fixed texts

  /** The pieces of a fixed text with the holes between them filled in:
      `lits[0] + holes[0] + lits[1] + holes[1] + ...`. */
  function Fill(lits: seq<string>, holes: seq<string>): string
    decreases |lits|
  {
    if lits == [] then []
    else lits[0] + (if holes == [] then [] else holes[0]) + Fill(lits[1..], if holes == [] then [] else holes[1..])
  }

  /** The literal pieces of everything the preprocessor writes around the
      copied code; `FixedTexts` holds them. */
  datatype Texts = Texts(
    header: seq<string>,        // around the file name
    prologue: seq<string>,      // around embed code, `Tparams`, name, `params`, `d2u`
    pragmaPush: string,
    pragmaPop: string,
    epilogue: seq<string>,      // around the kernel strings, see `Epilogue`
    templateHead: seq<string>,  // around `Tparams`, return type, name, signature
    launcherHead: seq<string>,  // around return type, name, parameters, ...
    launcherTail: seq<string>)  // around the runtime arguments

  /** `STRINGIFY(HASH_COMBINE_ARGS_SRC)`: the hashing source as one line. */
  const HashSource: string :=
    "template <typename T> struct __hash { size_t operator()(const T& h) const noexcept { return std::hash<T>{}(h); } };"
    + " template <class T> inline size_t hash_combine(const size_t &s, const T &v) noexcept"
    + " { return s^(__hash<T>{}(v)+0x9e3779b9ull+(s<<6)+(s>>2)); }"
    + " template<typename T> size_t hash_args(const size_t &s, const T &t) noexcept { return hash_combine(s,t); }"
    + " template<typename T, typename... Args> size_t hash_args(const size_t &s, const T &f, Args... a) noexcept"
    + " { return hash_args(hash_combine(s,f), a...); }"

  const FixedTexts: Texts := Texts(
    // kerHeader
    ["#include \"general/kernel.hpp\"\n#include <cstddef>\n#include <functional>\n" + HashSource + "\n#line 1 \"",
     "\"\n"],
    // kerPrefix
    ["\n\tconst char *src=R\"_(#include <cstdint>\n#include <limits>\n#include <cstring>\n#include <stdbool.h>"
     + "\n#include \"mfem.hpp\"\n#include \"general/kernel.hpp\"\n#include \"general/forall.hpp\"",
     "\nusing namespace mfem;\n\ntemplate<", ">\nvoid ker_", "(", "){", ""],
    "\n#pragma push\n#pragma diag_suppress 177\n",
    "\n#pragma pop",
    // kerPostfix
    ["}\nextern \"C\"\nvoid k%016lx(", "){ker_", "<", ">(", ");\n})_\";\n\ttypedef void (*kernel_t)(",
     ");\n\tstatic unordered_map<size_t,kernel::kernel<kernel_t>*> ks;", "\n\tconst char *xcc = \"",
     "\";\n\tconst size_t args_seed = std::hash<size_t>()(0);\n\tconst size_t args_hash = kernel::hash_args(args_seed,",
     ");\n\tif (!ks[args_hash]){\n\t\tks[args_hash] = new kernel::kernel<kernel_t>(xcc,src,\"-I", "\",",
     ");\n\t}\n\tks[args_hash]->operator_void(", ");\n"],
    // __template
    ["template<", ">\n", "__", "(", ""],
    // templatePostfix
    ["\n", "", "(", "){\n\ttypedef ", "(*__T", ")(", ";\n\tconst size_t id = hash_args(std::hash<size_t>()(0), ",
     ");\n\tstatic std::unordered_map<size_t, __T", "> call = {"],
    ["\n\t};\n\tassert(call[id]);\n\tcall[id](", ");\n}"])

  // ---------------------------------------------------------------------------
  // Header

  /** `kerHeader`: includes, the hashing source, and a `#line` directive
      so that compiler messages point into the original file. */
  function Header(file: string, t: Texts): string {
    Fill(t.header, [file])
  }

  // ---------------------------------------------------------------------------
  // MFEM_KERNEL

  /** `kerPrefix`: opens the raw string holding the kernel source for the
      just-in-time compiler, with the embedded code (up to its first NUL)
      between pragmas when there is any, the templated `ker_<name>` and the
      `double` unpacking. */
  function Prologue(k: Kernel, embed: string, t: Texts): string {
    var d := k.derived;
    Fill(t.prologue, [if embed != [] then t.pragmaPush + CStr(embed) + t.pragmaPop else "",
                      d.tparams, k.name, d.params, if d.d2u != [] then "\n\t" + d.d2u else ""])
  }

  /** `kerPostfix`: closes `ker_<name>`, adds the `extern "C"` entry point the
      compiled library exports, closes the raw string, and writes the host
      code that hashes the dispatch values, compiles on first use and calls. */
  function Epilogue(k: Kernel, t: Texts): string {
    var d := k.derived;
    Fill(t.epilogue, [d.params, k.name, d.tformat, d.argsWoAmp, d.params,
                      if d.u2d != [] then "\n\t" + d.u2d else "",
                      k.xcc, d.targs, k.dirname, d.targs, d.args])
  }

  // ---------------------------------------------------------------------------
  // MFEM_TEMPLATE

  /** `to_string` of an `int`. */
  function IntString(v: int): (r: string)
    ensures r != []
  {
    if v < 0 then "-" + DecimalString(-v) else DecimalString(v)
  }

  function IntStrings(vs: seq<int>): (r: seq<string>)
    ensures |r| == |vs|
  {
    if vs == [] then [] else IntStrings(vs[..|vs| - 1]) + [IntString(vs[|vs| - 1])]
  }

  /** The key of a combination as written: `std::hex << "0x" << hash`. */
  function KeyText(combo: seq<int>): string {
    "0x" + HexString(FoldHash(0, combo) as int)
  }

  /** One table entry: the key and the specialisation `__<name><v1,...,vk>`. */
  function Entry(name: string, combo: seq<int>): string {
    "\n\t\t{" + KeyText(combo) + ",&__" + name + "<" + JoinWith(",", IntStrings(combo)) + ">},"
  }

  /** The entries of a list of combinations, in order. */
  function Entries(name: string, combos: seq<seq<int>>): (r: seq<string>)
    ensures |r| == |combos|
  {
    if combos == [] then [] else Entries(name, combos[..|combos| - 1]) + [Entry(name, combos[|combos| - 1])]
  }

  function Table(name: string, combos: seq<seq<int>>): string {
    Concat(Entries(name, combos))
  }

  /** The launcher `templatePostfix` writes after the specialised kernel:
      same name and parameters as the original function, a hash of the
      ranged values, a static table from key to specialisation over every
      combination of the ranges, and the call. */
  function Launcher(name: string, tpl: Template, t: Texts): string {
    LauncherHead(name, tpl, t) + Table(name, Product(tpl.ranges)) + LauncherTail(tpl, t)
  }

  /** The launcher up to its table: signature, typedef, run-time key. */
  function LauncherHead(name: string, tpl: Template, t: Texts): string {
    Fill(t.launcherHead, [tpl.returnType, name, tpl.params, tpl.returnType, name, tpl.signature, tpl.targs, name])
  }

  /** The launcher after its table: the lookup and the call. */
  function LauncherTail(tpl: Template, t: Texts): string {
    Fill(t.launcherTail, [tpl.args])
  }

  function NameOf(a: Argument): string { a.name }

  function RangeOf(a: Argument): seq<int> { a.range }

  /** The template parameter a ranged argument becomes. */
  function RangedParam(a: Argument): string { "const " + a.typeName + " " + a.name }

  /** What `templateGetArgs` has recorded in `tpl`, starting from `base`,
      once it has read the runtime arguments `plain` and the ranged
      (`MFEM_RANGE`) arguments `ranged`: their names joined by ", ", the
      declarations and value lists of the ranged ones; the parameter list
      and signature only grow. */
  predicate Gathered(base: Template, tpl: Template, plain: seq<Argument>, ranged: seq<Argument>) {
    && tpl.returnType == base.returnType
    && tpl.args == base.args + JoinWith(", ", Map(plain, NameOf))
    && tpl.targs == base.targs + JoinWith(", ", Map(ranged, NameOf))
    && tpl.tparams == base.tparams + JoinWith(", ", Map(ranged, RangedParam))
    && tpl.ranges == base.ranges + Map(ranged, RangeOf)
    && base.params <= tpl.params && base.signature <= tpl.signature
    && (forall a :: a in plain ==> !a.isTpl)
    && (forall a :: a in ranged ==> a.isTpl && a.range != [])
  }

  /** Before any argument, nothing has been gathered. */
  lemma GatheredNothing(tpl: Template)
    ensures Gathered(tpl, tpl, [], [])
  {
    assert tpl.args + [] == tpl.args && tpl.ranges + [] == tpl.ranges;
  }

  /** Recording a runtime argument keeps `Gathered`. */
  lemma GatheredPlain(base: Template, tpl: Template, plain: seq<Argument>, ranged: seq<Argument>,
                      a: Argument, current: string)
    requires Gathered(base, tpl, plain, ranged) && !a.isTpl
    ensures Gathered(base, tpl.(signature := tpl.signature + current + a.name,
                                args := tpl.args + (if plain == [] then "" else ", ") + a.name),
                     plain + [a], ranged)
  {
    JoinStep(base.args, ", ", Map(plain, NameOf), a.name);
    MapSnoc(plain, a, NameOf);
  }

  /** Recording a ranged argument keeps `Gathered`. */
  lemma GatheredRanged(base: Template, tpl: Template, plain: seq<Argument>, ranged: seq<Argument>, a: Argument)
    requires Gathered(base, tpl, plain, ranged) && a.isTpl && a.range != []
    ensures Gathered(base, tpl.(tparams := tpl.tparams + (if ranged == [] then "" else ", ") + RangedParam(a),
                                ranges := tpl.ranges + [a.range],
                                targs := tpl.targs + (if ranged == [] then "" else ", ") + a.name),
                     plain, ranged + [a])
  {
    JoinStep(base.targs, ", ", Map(ranged, NameOf), a.name);
    JoinStep(base.tparams, ", ", Map(ranged, RangedParam), RangedParam(a));
    MapSnoc(ranged, a, NameOf);
    MapSnoc(ranged, a, RangedParam);
    MapSnoc(ranged, a, RangeOf);
  }

  /** Extending the parameter list keeps `Gathered`. */
  lemma GatheredGrow(base: Template, tpl: Template, plain: seq<Argument>, ranged: seq<Argument>, p: string)
    requires Gathered(base, tpl, plain, ranged)
    ensures Gathered(base, tpl.(params := tpl.params + p), plain, ranged)
  {
    assert (tpl.params + p)[..|tpl.params|] == tpl.params;
  }

  /** Closing the signature keeps `Gathered`. */
  lemma GatheredClosed(base: Template, tpl: Template, plain: seq<Argument>, ranged: seq<Argument>, s: string)
    requires Gathered(base, tpl, plain, ranged)
    ensures Gathered(base, tpl.(signature := tpl.signature + s), plain, ranged)
  {
    assert (tpl.signature + s)[..|tpl.signature|] == tpl.signature;
  }

  /** `__template`: the specialisable kernel `__<name>` the body follows. */
  function TemplateHead(name: string, tpl: Template, t: Texts): string {
    Fill(t.templateHead, [tpl.tparams, tpl.returnType, name, tpl.signature])
  }

  /** `small` occurs in `big` at position `at`. */
  predicate OccursAt(big: string, small: string, at: nat) {
    at + |small| <= |big| && big[at..at + |small|] == small
  }

  lemma {:induction false} EntriesAt(name: string, combos: seq<seq<int>>, k: nat)
    requires k < |combos|
    ensures Entries(name, combos)[k] == Entry(name, combos[k])
    ensures Entries(name, combos)[..k] == Entries(name, combos[..k])
  {
    EntriesIndex(name, combos, k);
    EntriesPrefix(name, combos, k);
  }

  lemma {:induction false} EntriesIndex(name: string, combos: seq<seq<int>>, k: nat)
    requires k < |combos|
    ensures Entries(name, combos)[k] == Entry(name, combos[k])
    decreases |combos|
  {
    if k < |combos| - 1 {
      var front := combos[..|combos| - 1];
      EntriesIndex(name, front, k);
      assert front[k] == combos[k];
    }
  }

  lemma {:induction false} EntriesPrefix(name: string, combos: seq<seq<int>>, k: nat)
    requires k <= |combos|
    ensures Entries(name, combos)[..k] == Entries(name, combos[..k])
    decreases |combos|
  {
    if k == |combos| {
      assert combos[..k] == combos;
    } else {
      var front := combos[..|combos| - 1];
      EntriesPrefix(name, front, k);
      assert front[..k] == combos[..k];
      var es, last := Entries(name, front), Entry(name, combos[|combos| - 1]);
      assert Entries(name, combos) == es + [last];
      assert (es + [last])[..k] == es[..k];
    }
  }

  /** A concatenation holds each piece after the pieces before it. */
  lemma {:induction false} ConcatAt(xs: seq<string>, k: nat)
    requires k < |xs|
    ensures OccursAt(Concat(xs), xs[k], |Concat(xs[..k])|)
    decreases |xs|
  {
    var front := xs[..|xs| - 1];
    if k == |xs| - 1 {
      assert xs[..k] == front;
    } else {
      ConcatAt(front, k);
      assert front[..k] == xs[..k];
      var at := |Concat(xs[..k])|;
      assert (Concat(front) + xs[|xs| - 1])[at..at + |xs[k]|] == Concat(front)[at..at + |xs[k]|];
    }
  }

  /** The table is the entries of the earlier combinations, then the entry
      of combination `k`, then the rest. */
  lemma TableAt(name: string, combos: seq<seq<int>>, k: nat)
    requires k < |combos|
    ensures OccursAt(Table(name, combos), Entry(name, combos[k]), |Table(name, combos[..k])|)
  {
    EntriesAt(name, combos, k);
    ConcatAt(Entries(name, combos), k);
  }

  /** The text of the key of a combination reads back, as a hexadecimal
      number, as the key the launcher computes at run time from the same
      values with `hash_args(std::hash<size_t>()(0), ...)`. */
  lemma KeyReadsBack(combo: seq<int>)
    requires |combo| >= 1
    ensures KeyText(combo)[..2] == "0x"
    ensures HexValue(KeyText(combo)[2..]) == HashArgs(IntHash(0), combo) as int
  {
    KeyAgreement(combo);
    HexRoundTrip(FoldHash(0, combo) as int);
    assert KeyText(combo)[2..] == HexString(FoldHash(0, combo) as int);
  }

  lemma OccursInside(head: string, body: string, tail: string, small: string, at: nat)
    requires OccursAt(body, small, at)
    ensures OccursAt(head + body + tail, small, |head| + at)
  {
    assert (head + body + tail)[|head| + at..|head| + at + |small|] == body[at..at + |small|];
  }

  /** Each listed combination has its entry in the table. */
  lemma ListedInTable(name: string, combos: seq<seq<int>>, c: seq<int>) returns (at: nat)
    requires c in combos
    ensures OccursAt(Table(name, combos), Entry(name, c), at)
  {
    var k :| 0 <= k < |combos| && combos[k] == c;
    TableAt(name, combos, k);
    at := |Table(name, combos[..k])|;
  }

  /** Every choice of one value per declared range has its entry in the
      launcher's table, under the key the launcher computes for it. */
  lemma EveryCombinationListed(name: string, tpl: Template, t: Texts, c: seq<int>)
    requires |c| == |tpl.ranges| && forall i :: 0 <= i < |c| ==> c[i] in tpl.ranges[i]
    ensures exists at :: OccursAt(Launcher(name, tpl, t), Entry(name, c), at)
  {
    ProductMember(tpl.ranges, c);
    var at := ListedInTable(name, Product(tpl.ranges), c);
    var head := LauncherHead(name, tpl, t);
    OccursInside(head, Table(name, Product(tpl.ranges)), LauncherTail(tpl, t), Entry(name, c), at);
    assert OccursAt(Launcher(name, tpl, t), Entry(name, c), |head| + at);
  }

  /** The table has one entry per combination: as many as the product of
      the range sizes. */
  lemma TableSize(t: Template)
    ensures |Product(t.ranges)| == SizeProduct(t.ranges)
  {
    ProductSize(t.ranges);
  }
}
