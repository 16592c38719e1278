/**
 * The plugin registry (plugins/__init__.py): plugin classes kept sorted by
 * name, the command-line options each contributes, the RequiredIf rule that
 * makes a plugin's options mandatory once its flag is given, and the
 * enabled check.
 */
module Plugins {
  import opened Wrappers
  import opened PyStr

  /** The values that reach the command's keyword arguments. */
  datatype PyValue = PyNone | PyBool(b: bool) | PyText(s: string) | PyInt(n: int)

  predicate Truthy(v: PyValue) {
    match v
    case PyNone => false
    case PyBool(b) => b
    case PyText(s) => s != ""
    case PyInt(n) => n != 0
  }

  /** `PluginSpecificOption`: the option's parameter name and flag
      declaration, its click type, help, default, and whether it is
      required once the plugin is enabled. */
  datatype PluginSpecificOption = PluginSpecificOption(
    name: string, flagPattern: string, kind: Option<string>, help: Option<string>, default: PyValue, required: bool)

  /** A plugin class: its Python class name, `get_name()`, its docstring, and
      the options it lists ahead of the base class's (`[...] + super()...`). */
  datatype PluginClass = PluginClass(className: string, name: string, doc: Option<string>, extra: seq<PluginSpecificOption>)

  /** A `click.option` declaration; `requiredIf` is present when it was made with `cls=RequiredIf`. */
  datatype ClickOption = ClickOption(
    decls: seq<string>, kind: Option<string>, default: PyValue, help: string, showDefault: bool, requiredIf: Option<string>)

  // ---------------------------------------------------------------------
  // `Plugin`

  /** `flag()`: the keyword under which the plugin's on/off switch arrives. */
  function Flag(p: PluginClass): (r: string)
    ensures |r| == 7 + |p.className| && r[..7] == "enable_" && r[7..] == p.className
  {
    "enable_" + p.className
  }

  /** The base `get_plugin_specific_options`: one switch named by the flag,
      `--plugin-<name>/--no-plugin-<name>`, off by default, with the
      docstring as help. */
  function BaseOption(p: PluginClass): PluginSpecificOption {
    PluginSpecificOption(Flag(p), "--plugin-" + p.name + "/--no-plugin-" + p.name, None, p.doc, PyBool(false), true)
  }

  function PluginOptions(p: PluginClass): (r: seq<PluginSpecificOption>)
    ensures |r| == |p.extra| + 1 && r[|r| - 1] == BaseOption(p) && r[..|p.extra|] == p.extra
  {
    p.extra + [BaseOption(p)]
  }

  /** `is_plugin_enabled`: the flag's value when it was passed, False otherwise. */
  function IsPluginEnabled(p: PluginClass, kwargs: map<string, PyValue>): (r: PyValue)
    ensures Truthy(r) <==> Flag(p) in kwargs && Truthy(kwargs[Flag(p)])
    ensures Flag(p) in kwargs ==> r == kwargs[Flag(p)]
  {
    if Flag(p) in kwargs then kwargs[Flag(p)] else PyBool(false)
  }

  // ---------------------------------------------------------------------
  // `as_click_option` and `RequiredIf`

  const RequiredNote: string := " NOTE: This argument is required for "

  /** The help `RequiredIf` builds: the given help, the note, the flag, stripped. */
  function RequiredIfHelp(help: string, flag: string): string {
    Strip(help + RequiredNote + flag)
  }

  function HelpText(help: Option<string>): string {
    if help.Some? then help.value else ""
  }

  function AsClickOption(o: PluginSpecificOption, flag: string): (r: ClickOption)
    requires flag != ""
    ensures r.decls == [o.name, o.flagPattern] && r.kind == o.kind && r.default == o.default && r.showDefault
    ensures r.requiredIf.Some? <==> o.required
    ensures r.requiredIf.Some? ==> r.requiredIf.value == flag && r.help == RequiredIfHelp(HelpText(o.help), flag)
    ensures r.requiredIf.None? ==> r.help == HelpText(o.help)
  {
    if o.required then ClickOption([o.name, o.flagPattern], o.kind, o.default, RequiredIfHelp(HelpText(o.help), flag), true, Some(flag))
    else ClickOption([o.name, o.flagPattern], o.kind, o.default, HelpText(o.help), true, None)
  }

  lemma NoteTrimmed(flag: string)
    requires flag != "" && !IsSpace(flag[|flag| - 1])
    ensures Trimmed("NOTE: This argument is required for " + flag)
  {
    var prefix := "NOTE: This argument is required for ";
    assert prefix[0] == 'N';
    assert (prefix + flag)[0] == 'N';
    assert (prefix + flag)[|prefix + flag| - 1] == flag[|flag| - 1];
  }

  lemma NoteAfterSpace(flag: string)
    ensures RequiredNote + flag == [' '] + ("NOTE: This argument is required for " + flag)
  {
    assert RequiredNote == [' '] + "NOTE: This argument is required for ";
  }

  /** A blank help (a class without docstring) leaves just the note. */
  lemma RequiredIfHelpBlank(help: string, flag: string)
    requires forall i :: 0 <= i < |help| ==> IsSpace(help[i])
    requires flag != "" && !IsSpace(flag[|flag| - 1])
    ensures RequiredIfHelp(help, flag) == "NOTE: This argument is required for " + flag
  {
    var note := "NOTE: This argument is required for " + flag;
    assert help + RequiredNote + flag == help + (RequiredNote + flag);
    StripLeftBlank(help, RequiredNote + flag);
    NoteAfterSpace(flag);
    StripLeftBlank([' '], note);
    NoteTrimmed(flag);
    StripTrimmed(note);
  }

  /** A help that starts with a printable character is kept whole, followed by the note. */
  lemma RequiredIfHelpKept(help: string, flag: string)
    requires help != [] && !IsSpace(help[0])
    requires flag != "" && !IsSpace(flag[|flag| - 1])
    ensures RequiredIfHelp(help, flag) == help + RequiredNote + flag
  {
    StripTrimmed(help + RequiredNote + flag);
  }

  /** What `handle_parse_result` does before handing on: raise a usage error,
      or pass, having cleared the prompt when the flag was given. */
  datatype ParseCheck = UsageError(text: string) | Passed(promptCleared: bool)

  /** `RequiredIf.handle_parse_result`: with the flag among the parsed
      options, a missing option raises and a present one clears its prompt;
      without the flag nothing is checked. Plain options always pass. */
  function HandleParseResult(o: ClickOption, opts: set<string>): (r: ParseCheck)
    requires |o.decls| > 0
    ensures r.UsageError? <==> o.requiredIf.Some? && o.requiredIf.value in opts && o.decls[0] !in opts
    ensures r.UsageError? ==> r.text == "Illegal usage: `" + o.decls[0] + "` is required for `" + o.requiredIf.value + "`"
    ensures r.Passed? ==> (r.promptCleared <==> o.requiredIf.Some? && o.requiredIf.value in opts)
  {
    match o.requiredIf
    case None => Passed(false)
    case Some(flag) =>
      if flag in opts then
        if o.decls[0] !in opts then UsageError("Illegal usage: `" + o.decls[0] + "` is required for `" + flag + "`")
        else Passed(true)
      else Passed(false)
  }

  /** The on/off switch a plugin gets from the base class is its own
      required-if flag, so it can never be the missing one. */
  lemma BaseSwitchNeverRaises(p: PluginClass, opts: set<string>)
    ensures HandleParseResult(AsClickOption(BaseOption(p), Flag(p)), opts).Passed?
  {
  }

  // ---------------------------------------------------------------------
  // Python's `<` on `str`: code point by code point, a proper prefix first

  predicate StrLess(a: string, b: string) {
    if a == [] then b != []
    else if b == [] then false
    else a[0] < b[0] || (a[0] == b[0] && StrLess(a[1..], b[1..]))
  }

  lemma {:induction false} StrLessIrreflexive(a: string)
    ensures !StrLess(a, a)
    decreases |a|
  {
    if a != [] {
      StrLessIrreflexive(a[1..]);
    }
  }

  lemma {:induction false} StrLessTransitive(a: string, b: string, c: string)
    requires StrLess(a, b) && StrLess(b, c)
    ensures StrLess(a, c)
    decreases |a|
  {
    if a != [] && a[0] == b[0] && b[0] == c[0] {
      StrLessTransitive(a[1..], b[1..], c[1..]);
    }
  }

  lemma {:induction false} StrLessTotal(a: string, b: string)
    ensures a == b || StrLess(a, b) || StrLess(b, a)
    decreases |a|
  {
    if a != [] && b != [] && a[0] == b[0] {
      StrLessTotal(a[1..], b[1..]);
      if a[1..] == b[1..] {
        assert a == [a[0]] + a[1..] && b == [b[0]] + b[1..];
      }
    }
  }

  lemma {:induction false} StrLessAsymmetric(a: string, b: string)
    requires StrLess(a, b)
    ensures !StrLess(b, a)
    decreases |a|
  {
    if a != [] && b != [] && a[0] == b[0] {
      StrLessAsymmetric(a[1..], b[1..]);
    }
  }

  /** `a < b` followed by `b <= c` gives `a < c`. */
  lemma StrLessThenLeq(a: string, b: string, c: string)
    requires StrLess(a, b) && !StrLess(c, b)
    ensures StrLess(a, c)
  {
    StrLessTotal(b, c);
    if b != c {
      StrLessTransitive(a, b, c);
    }
  }

  /** `a <= b` and `b <= c` give `a <= c`. */
  lemma StrLeqTransitive(a: string, b: string, c: string)
    requires !StrLess(b, a) && !StrLess(c, b)
    ensures !StrLess(c, a)
  {
    StrLessTotal(a, b);
    StrLessTotal(b, c);
    if a != b && b != c {
      StrLessTransitive(a, b, c);
      StrLessAsymmetric(a, c);
    }
  }

  // ---------------------------------------------------------------------
  // `register`: `bisect.insort` by `get_name()`

  /** Non-decreasing by name. */
  predicate SortedByName(s: seq<PluginClass>) {
    forall i, j :: 0 <= i < j < |s| ==> !StrLess(s[j].name, s[i].name)
  }

  /** Where `bisect_right` leaves `x`: after every name not above it, before every name above it. */
  predicate InsortPoint(s: seq<PluginClass>, x: string, k: int) {
    0 <= k <= |s| &&
    (forall i :: 0 <= i < k ==> !StrLess(x, s[i].name)) &&
    (forall i :: k <= i < |s| ==> StrLess(x, s[i].name))
  }

  /** Insertion into a sorted list after every element whose name is not
      above `p`'s: the reference `insort_right`. */
  function InsortRight(s: seq<PluginClass>, p: PluginClass): seq<PluginClass> {
    if s == [] then [p]
    else if StrLess(p.name, s[0].name) then [p] + s
    else [s[0]] + InsortRight(s[1..], p)
  }

  /** `bisect_right(a, key(x), key=key)`: the binary search. */
  method BisectRight(a: seq<PluginClass>, x: string) returns (lo: nat)
    requires SortedByName(a)
    ensures InsortPoint(a, x, lo)
  {
    lo := 0;
    var hi := |a|;
    while lo < hi
      invariant 0 <= lo <= hi <= |a|
      invariant forall i :: 0 <= i < lo ==> !StrLess(x, a[i].name)
      invariant forall i :: hi <= i < |a| ==> StrLess(x, a[i].name)
      decreases hi - lo
    {
      var mid := (lo + hi) / 2;
      if StrLess(x, a[mid].name) {
        forall i | mid <= i < hi ensures StrLess(x, a[i].name) {
          if i != mid {
            StrLessThenLeq(x, a[mid].name, a[i].name);
          }
        }
        hi := mid;
      } else {
        forall i | lo <= i <= mid ensures !StrLess(x, a[i].name) {
          if i != mid {
            StrLeqTransitive(a[i].name, a[mid].name, x);
          }
        }
        lo := mid + 1;
      }
    }
  }

  /** The insertion point of the binary search is where the reference
      insertion puts the new class. */
  lemma {:induction false} InsortAt(s: seq<PluginClass>, p: PluginClass, k: int)
    requires InsortPoint(s, p.name, k)
    ensures InsortRight(s, p) == s[..k] + [p] + s[k..]
    decreases |s|
  {
    if s != [] {
      if k == 0 {
        assert StrLess(p.name, s[0].name);
        assert s[..0] + [p] + s[0..] == [p] + s;
      } else {
        assert !StrLess(p.name, s[0].name);
        InsortAt(s[1..], p, k - 1);
        assert s[..k] + [p] + s[k..] == [s[0]] + (s[1..][..k - 1] + [p] + s[1..][k - 1..]);
      }
    }
  }

  /** Inserting keeps every element and adds `p`. */
  lemma {:induction false} InsortRightElements(s: seq<PluginClass>, p: PluginClass)
    ensures multiset(InsortRight(s, p)) == multiset(s) + multiset{p}
    decreases |s|
  {
    if s != [] && !StrLess(p.name, s[0].name) {
      InsortRightElements(s[1..], p);
      assert s == [s[0]] + s[1..];
    }
  }

  /** Inserting into a sorted list keeps it sorted. */
  lemma InsortRightSorted(s: seq<PluginClass>, p: PluginClass, k: int)
    requires SortedByName(s) && InsortPoint(s, p.name, k)
    ensures SortedByName(s[..k] + [p] + s[k..])
  {
    var t := s[..k] + [p] + s[k..];
    forall i, j | 0 <= i < j < |t| ensures !StrLess(t[j].name, t[i].name) {
      if j < k || i > k {
        var si := if i < k then i else i - 1;
        var sj := if j < k then j else j - 1;
        assert t[i] == s[si] && t[j] == s[sj];
      } else if i == k {
        assert t[j] == s[j - 1];
        StrLessAsymmetric(p.name, s[j - 1].name);
      } else {
        assert t[i] == s[i];
      }
    }
  }

  class Registry {
    /** `_plugins`. */
    var plugins: seq<PluginClass>

    predicate Valid()
      reads this
    {
      SortedByName(plugins)
    }

    constructor ()
      ensures plugins == [] && Valid()
    {
      plugins := [];
    }

    /** `register`: inserts the class after every class whose name is not
        above its own and returns it unchanged. */
    method Register(p: PluginClass) returns (r: PluginClass)
      requires Valid()
      modifies this
      ensures Valid()
      ensures r == p
      ensures plugins == InsortRight(old(plugins), p)
      ensures multiset(plugins) == multiset(old(plugins)) + multiset{p}
    {
      var k := BisectRight(plugins, p.name);
      InsortAt(plugins, p, k);
      InsortRightSorted(plugins, p, k);
      InsortRightElements(plugins, p);
      plugins := plugins[..k] + [p] + plugins[k..];
      r := p;
    }

    /** `list_plugin_specific_options`: each registered class's options in
        registry order, made click options with the class's flag. */
    method ListPluginSpecificOptions() returns (options: seq<ClickOption>)
      ensures options == Listed(plugins)
    {
      options := [];
      for i := 0 to |plugins|
        invariant options == Listed(plugins[..i])
      {
        assert plugins[..i + 1][..i] == plugins[..i];
        options := options + ClickOptions(plugins[i]);
      }
      assert plugins[..|plugins|] == plugins;
    }
  }

  function ClickOptions(p: PluginClass): (r: seq<ClickOption>)
    ensures |r| == |p.extra| + 1
  {
    var opts := PluginOptions(p);
    seq(|opts|, i requires 0 <= i < |opts| => AsClickOption(opts[i], Flag(p)))
  }

  function Listed(ps: seq<PluginClass>): seq<ClickOption> {
    if ps == [] then [] else Listed(ps[..|ps| - 1]) + ClickOptions(ps[|ps| - 1])
  }

  /** With classes that add no options of their own, the list holds one
      switch per class, in registry order, each required for its own flag. */
  lemma {:induction false} ListedSwitches(ps: seq<PluginClass>)
    requires forall i :: 0 <= i < |ps| ==> ps[i].extra == []
    ensures |Listed(ps)| == |ps|
    ensures forall i :: 0 <= i < |ps| ==>
      Listed(ps)[i] == AsClickOption(BaseOption(ps[i]), Flag(ps[i])) &&
      Listed(ps)[i].decls == [Flag(ps[i]), "--plugin-" + ps[i].name + "/--no-plugin-" + ps[i].name] &&
      Listed(ps)[i].requiredIf == Some(Flag(ps[i]))
    decreases |ps|
  {
    if ps != [] {
      var init := ps[..|ps| - 1];
      ListedSwitches(init);
      var last := ps[|ps| - 1];
      assert ClickOptions(last) == [AsClickOption(BaseOption(last), Flag(last))];
      forall i | 0 <= i < |ps|
        ensures Listed(ps)[i] == AsClickOption(BaseOption(ps[i]), Flag(ps[i]))
      {
        if i < |init| {
          assert ps[i] == init[i];
        }
      }
    }
  }

  /** Every listed option is one of some class's options, made with that class's flag. */
  lemma {:induction false} ListedFromClasses(ps: seq<PluginClass>)
    ensures |Listed(ps)| >= |ps|
    ensures forall o :: o in Listed(ps) ==>
      exists j, m :: 0 <= j < |ps| && 0 <= m < |PluginOptions(ps[j])| && o == AsClickOption(PluginOptions(ps[j])[m], Flag(ps[j]))
    decreases |ps|
  {
    if ps != [] {
      var init := ps[..|ps| - 1];
      ListedFromClasses(init);
      var last := ps[|ps| - 1];
      forall o | o in Listed(ps)
        ensures exists j, m :: 0 <= j < |ps| && 0 <= m < |PluginOptions(ps[j])| && o == AsClickOption(PluginOptions(ps[j])[m], Flag(ps[j]))
      {
        if o in Listed(init) {
          var j, m :| 0 <= j < |init| && 0 <= m < |PluginOptions(init[j])| && o == AsClickOption(PluginOptions(init[j])[m], Flag(init[j]));
          assert ps[j] == init[j];
        } else {
          var m :| 0 <= m < |ClickOptions(last)| && ClickOptions(last)[m] == o;
          assert ps[|ps| - 1] == last;
        }
      }
    }
  }
}
