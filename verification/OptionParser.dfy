/** The command-line parser (`lyra.hpp`) in its default POSIX style, for text options and flags:
    the token iterator, the parsing of one option, the loop over all options. */
module OptionParser {
  import opened Sequences
  import opened Wrappers

  // ----------------------------------------------------------------------------------------
  // Strings and style
  // ----------------------------------------------------------------------------------------

  const DELIMITERS: string := "= "
  const PREFIX: string := "-"
  const LONG_SIZE: nat := 2
  const SHORT_SIZE: nat := 1

  /** `find_first_of`. */
  function FirstOf(s: string, set_: string): (r: Option<nat>)
    ensures r.Some? ==> r.value < |s| && s[r.value] in set_ && forall i :: 0 <= i < r.value ==> s[i] !in set_
    ensures r.None? ==> forall i :: 0 <= i < |s| ==> s[i] !in set_
  {
    if s == [] then None
    else if s[0] in set_ then Some(0)
    else
      var r := FirstOf(s[1..], set_);
      assert forall i :: 1 <= i < |s| ==> s[i] == s[1..][i - 1];
      if r.None? then None else Some(r.value + 1)
  }

  /** Exactly `size` prefix characters, all the same, and then something else. */
  predicate IsPrefixed(prefix: string, size: nat, s: string) {
    && prefix != [] && size > 0 && |s| > size
    && exists c :: c in prefix && s[size] != c && forall i :: 0 <= i < size ==> s[i] == c
  }

  // ----------------------------------------------------------------------------------------
  // The token iterator
  // ----------------------------------------------------------------------------------------

  datatype Token = Unknown | Option(name: string) | Argument(name: string)

  /** A place in the arguments: argument `i`, and inside a group of short options character `sub`. */
  datatype Tokens = Tokens(args: seq<string>, i: nat, sub: nat) {
    predicate Valid() {
      && i <= |args| && sub >= SHORT_SIZE
      && (i < |args| && IsPrefixed(PREFIX, SHORT_SIZE, args[i]) ==> sub < |args[i]|)
    }

    predicate More() { i < |args| }

    predicate HasShort() { More() && IsPrefixed(PREFIX, SHORT_SIZE, args[i]) }

    predicate HasLong() { More() && IsPrefixed(PREFIX, LONG_SIZE, args[i]) }

    predicate HasDelimiter() { More() && FirstOf(args[i], DELIMITERS).Some? }

    /** The option named at this place. */
    function Option(): Token
      requires Valid()
    {
      if HasLong() then
        if HasDelimiter() then Token.Option(args[i][..FirstOf(args[i], DELIMITERS).value])
        else Token.Option(args[i])
      else if HasShort() then Token.Option(['-', args[i][sub]])
      else Unknown
    }

    /** The value that goes with it. */
    function Value(): Token
      requires Valid()
    {
      if HasShort() && FirstOf(args[i], DELIMITERS) == Some(SHORT_SIZE + 1) then Argument(args[i][3..])
      else if HasLong() && HasDelimiter() then Argument(args[i][FirstOf(args[i], DELIMITERS).value + 1..])
      else if HasLong() then
        if i + 1 != |args| then Argument(args[i + 1]) else Unknown
      else if HasShort() then
        if sub + 1 < |args[i]| then Argument(args[i][sub + 1..])
        else if i + 1 != |args| then Argument(args[i + 1])
        else Unknown
      else Unknown
    }

    /** Past a flag. */
    function PopFlag(): (r: Tokens)
      requires Valid() && More()
      ensures r.Valid() && r.args == args && r.Beyond(this)
    {
      if HasShort() && sub + 1 < |args[i]| then this.(sub := sub + 1)
      else Tokens(args, i + 1, SHORT_SIZE)
    }

    /** Past an option and its value. */
    function PopValue(): (r: Tokens)
      requires Valid() && More() && !Value().Unknown?
      ensures r.Valid() && r.args == args && r.Beyond(this)
    {
      if HasShort() && |args[i]| > 2 then Tokens(args, i + 1, SHORT_SIZE)
      else if !HasDelimiter() then Tokens(args, i + 2, SHORT_SIZE)
      else Tokens(args, i + 1, SHORT_SIZE)
    }

    /** What is left of a group of short options. */
    function RestOfGroup(): nat
      requires Valid()
    {
      if HasShort() then |args[i]| - sub else 0
    }

    predicate Beyond(t: Tokens) { i > t.i || (i == t.i && sub > t.sub && HasShort()) }
  }

  /** Going beyond a place leaves less to read. */
  lemma BeyondLeavesLess(t: Tokens, u: Tokens)
    requires t.Valid() && u.Valid() && t.More() && u.args == t.args && u.Beyond(t)
    ensures u.i > t.i || (u.i == t.i && u.RestOfGroup() < t.RestOfGroup())
    ensures u.i <= |u.args|
  {
  }

  // ----------------------------------------------------------------------------------------
  // One option
  // ----------------------------------------------------------------------------------------

  /** An option with its names, bound to a text variable or to a flag, allowed `minimum` to
      `maximum` times (no bound if `maximum` is zero). */
  datatype Opt = Opt(names: seq<string>, isFlag: bool, minimum: nat, maximum: nat)

  datatype Kind = Matched | NoMatch | ShortCircuit | EmptyMatch

  /** The result of a parse; an error need not say where it stopped. */
  datatype Outcome = Success(kind: Kind, rest: Tokens) | Failure(at: Option<Kind>)

  /** How a round over all options ends: one has taken the token, parsing must stop, or none has
      taken it; with the first error met on the way. */
  datatype Turn =
    | Taken(j: nat, rest: Tokens, error: Option<Outcome>)
    | Stopped(r: Outcome)
    | Nothing(error: Option<Outcome>)

  function Normalize(name: string): string {
    if IsPrefixed(PREFIX, SHORT_SIZE, name) then "-" + name[SHORT_SIZE..]
    else if IsPrefixed(PREFIX, LONG_SIZE, name) then "--" + name[LONG_SIZE..]
    else name
  }

  predicate IsMatch(o: Opt, name: string) {
    exists i :: 0 <= i < |o.names| && Normalize(o.names[i]) == Normalize(name)
  }

  predicate Validates(o: Opt) {
    o.names != [] && forall i :: 0 <= i < |o.names| ==> o.names[i] != [] && o.names[i][0] == '-'
  }

  predicate MayRepeat(o: Opt, count: nat) { o.maximum == 0 || count < o.maximum }

  predicate CountIsRight(o: Opt, count: nat) {
    !((o.maximum > 0 && (count < o.minimum || o.maximum < count)) || (o.minimum > 0 && count < o.minimum))
  }

  // ----------------------------------------------------------------------------------------
  // Arguments of the form --name=value
  // ----------------------------------------------------------------------------------------

  /** Two dashes and a name that neither starts with a dash nor holds a delimiter. */
  predicate IsLongName(n: string) { IsPrefixed(PREFIX, LONG_SIZE, n) && FirstOf(n, DELIMITERS).None? }

  predicate IsPair(arg: string) {
    && FirstOf(arg, DELIMITERS).Some? && arg[FirstOf(arg, DELIMITERS).value] == '='
    && IsLongName(NameOf(arg))
  }

  function NameOf(arg: string): string
    requires FirstOf(arg, DELIMITERS).Some?
  {
    arg[..FirstOf(arg, DELIMITERS).value]
  }

  function ValueOf(arg: string): string
    requires FirstOf(arg, DELIMITERS).Some?
  {
    arg[FirstOf(arg, DELIMITERS).value + 1..]
  }

  function Pair(n: string, v: string): string { n + "=" + v }

  /** A long name with any text behind an equals sign is a pair of just these two, whatever the text. */
  lemma PairIsRead(n: string, v: string)
    requires IsLongName(n)
    ensures IsPair(Pair(n, v)) && NameOf(Pair(n, v)) == n && ValueOf(Pair(n, v)) == v
  {
    var arg := Pair(n, v);
    assert arg[|n|] == '=' && forall i :: 0 <= i < |n| ==> arg[i] == n[i];
    assert FirstOf(arg, DELIMITERS) == Some(|n|);
  }

  /** There are no other pairs. */
  lemma PairsAreSuch(arg: string)
    requires IsPair(arg)
    ensures IsLongName(NameOf(arg)) && arg == Pair(NameOf(arg), ValueOf(arg))
  {
  }

  /** Long names: two dashes, then something else than a dash, and no delimiter. */
  lemma LongNamesAreSuch(n: string)
    ensures IsLongName(n) <==> |n| > 2 && n[0] == n[1] == '-' != n[2] && '=' !in n && ' ' !in n
  {
    if IsLongName(n) {
      assert n[0] == n[1] == '-';
    }
    if |n| > 2 && n[0] == n[1] == '-' != n[2] {
      assert '-' in PREFIX;
    }
  }

  /** A short option, or a group of them: one dash, then something else. */
  lemma ShortPrefix(s: string)
    ensures IsPrefixed(PREFIX, SHORT_SIZE, s) <==> |s| > 1 && s[0] == '-' != s[1]
  {
    assert '-' in PREFIX;
  }

  predicate ArePairs(args: seq<string>) { forall k :: 0 <= k < |args| ==> IsPair(args[k]) }

  /** Options whose names are legal and all different; text variables and flags, short and long
      names, and any cardinality. */
  predicate WellNamed(opts: seq<Opt>) {
    && (forall j :: 0 <= j < |opts| ==> Validates(opts[j]))
    && (forall j, k :: 0 <= j < |opts| && 0 <= k < |opts| && j != k ==>
          forall n :: n in opts[j].names ==> n !in opts[k].names)
  }

  /** The pair `arg` names option `j`. */
  predicate Names(opts: seq<Opt>, j: int, arg: string) {
    0 <= j < |opts| && IsPair(arg) && NameOf(arg) in opts[j].names
  }

  /** How many of `args` name option `j`. */
  function Count(opts: seq<Opt>, j: int, args: seq<string>): nat {
    if args == [] then 0
    else Count(opts, j, args[..|args| - 1]) + (if Names(opts, j, args[|args| - 1]) then 1 else 0)
  }

  /** The text of variable `j`, at first `init`, after `args`: the last that names it decides. */
  function Binding(opts: seq<Opt>, j: int, init: string, args: seq<string>): string {
    if args == [] then init
    else
      var arg := args[|args| - 1];
      if Names(opts, j, arg) then ValueOf(arg) else Binding(opts, j, init, args[..|args| - 1])
  }

  /** The pair names an option that takes a value. */
  ghost predicate Known(opts: seq<Opt>, arg: string) { exists j :: Names(opts, j, arg) && !opts[j].isFlag }

  ghost predicate AllKnown(opts: seq<Opt>, args: seq<string>) { forall k :: 0 <= k < |args| ==> Known(opts, args[k]) }

  /** Every name is known, and each option occurs as often as it must and may. */
  ghost predicate Accepts(opts: seq<Opt>, args: seq<string>) {
    AllKnown(opts, args) && forall j :: 0 <= j < |opts| ==> CountIsRight(opts[j], Count(opts, j, args))
  }

  ghost predicate BoundTo(opts: seq<Opt>, before: seq<string>, args: seq<string>, after: seq<string>) {
    && |after| == |before| == |opts|
    && forall j :: 0 <= j < |opts| ==> after[j] == Binding(opts, j, before[j], args)
  }

  /** In this style normalising a name changes nothing. */
  lemma NormalizeIsIdentity(n: string)
    ensures Normalize(n) == n
  {
    if IsPrefixed(PREFIX, SHORT_SIZE, n) {
      assert n == "-" + n[1..];
    } else if IsPrefixed(PREFIX, LONG_SIZE, n) {
      assert n == "--" + n[2..];
    }
  }

  lemma MatchIsMembership(o: Opt, name: string)
    ensures IsMatch(o, name) <==> name in o.names
  {
    NormalizeIsIdentity(name);
    forall n | n in o.names { NormalizeIsIdentity(n); }
  }

  /** A pair is read as its name and its value, and takes up one argument. */
  lemma PairTokens(t: Tokens)
    requires t.Valid() && t.More() && IsPair(t.args[t.i])
    ensures t.HasLong() && !t.HasShort() && t.HasDelimiter()
    ensures t.Option() == Token.Option(NameOf(t.args[t.i])) && t.Value() == Argument(ValueOf(t.args[t.i]))
    ensures t.PopValue() == Tokens(t.args, t.i + 1, SHORT_SIZE)
  {
    var arg := t.args[t.i];
    var name := NameOf(arg);
    assert name[0] == arg[0] && name[1] == arg[1] && name[2] == arg[2];
    assert IsPrefixed(PREFIX, LONG_SIZE, arg);
  }

  /** At a place that holds `--name=value`, the option is the name and the value is the value. */
  lemma PairAtPlace(t: Tokens, n: string, v: string)
    requires t.Valid() && t.More() && IsLongName(n) && t.args[t.i] == Pair(n, v)
    ensures t.Option() == Token.Option(n) && t.Value() == Argument(v)
    ensures t.PopValue() == Tokens(t.args, t.i + 1, SHORT_SIZE)
  {
    PairIsRead(n, v);
    PairTokens(t);
  }

  /** At a place that holds a long name alone, the value is the next argument. */
  lemma LongNameAtPlace(t: Tokens, n: string)
    requires t.Valid() && t.More() && IsLongName(n) && t.args[t.i] == n
    ensures t.Option() == Token.Option(n)
    ensures t.Value() == if t.i + 1 < |t.args| then Argument(t.args[t.i + 1]) else Unknown
    ensures t.i + 1 < |t.args| ==> t.PopValue() == Tokens(t.args, t.i + 2, SHORT_SIZE)
  {
    LongNamesAreSuch(n);
    ShortPrefix(n);
  }

  /** At a place inside a group of short options, `-abc`, the option is the one character there; as a
      flag it takes up just that, and its value is the rest of the argument or else the next one. */
  lemma ShortOptionAtPlace(t: Tokens)
    requires t.Valid() && t.More() && t.sub < |t.args[t.i]| && !t.HasDelimiter()
    requires |t.args[t.i]| > 1 && t.args[t.i][0] == '-' != t.args[t.i][1]
    ensures var arg := t.args[t.i];
            && t.Option() == Token.Option(['-', arg[t.sub]])
            && t.PopFlag() == (if t.sub + 1 < |arg| then t.(sub := t.sub + 1) else Tokens(t.args, t.i + 1, SHORT_SIZE))
            && t.Value() == (if t.sub + 1 < |arg| then Argument(arg[t.sub + 1..])
                             else if t.i + 1 < |t.args| then Argument(t.args[t.i + 1])
                             else Unknown)
            && (!t.Value().Unknown? ==>
                  t.PopValue() == Tokens(t.args, t.i + (if |arg| > 2 then 1 else 2), SHORT_SIZE))
  {
    ShortPrefix(t.args[t.i]);
    LongPrefix(t.args[t.i]);
  }

  lemma LongPrefix(s: string)
    ensures IsPrefixed(PREFIX, LONG_SIZE, s) ==> s[1] == '-'
  {
  }

  /** `-c=value` */
  lemma ShortPairAtPlace(t: Tokens, c: char, v: string)
    requires t.Valid() && t.More() && c !in {'-', '=', ' '} && t.args[t.i] == ['-', c, '='] + v && t.sub == SHORT_SIZE
    ensures t.Option() == Token.Option(['-', c]) && t.Value() == Argument(v)
    ensures t.PopValue() == Tokens(t.args, t.i + 1, SHORT_SIZE)
  {
    var arg := t.args[t.i];
    ShortPrefix(arg);
    LongPrefix(arg);
    assert arg[0] == '-' && arg[1] == c && arg[2] == '=';
    assert FirstOf(arg, DELIMITERS) == Some(2);
  }

  /** The state of the parse after the first `k` of a sequence of pairs. */
  ghost predicate ReadSoFar(opts: seq<Opt>, before: seq<string>, args: seq<string>, k: nat, counts: seq<nat>,
                            bound: seq<string>)
    requires k <= |args|
  {
    && |counts| == |opts| && AllKnown(opts, args[..k]) && BoundTo(opts, before, args[..k], bound)
    && forall j :: 0 <= j < |opts| ==> counts[j] == Count(opts, j, args[..k])
  }

  lemma ReadOne(opts: seq<Opt>, before: seq<string>, args: seq<string>, k: nat, counts: seq<nat>, was: seq<string>,
                j: nat)
    requires WellNamed(opts) && k < |args| && ReadSoFar(opts, before, args, k, counts, was)
    requires Names(opts, j, args[k]) && !opts[j].isFlag
    ensures ReadSoFar(opts, before, args, k + 1, counts[j := counts[j] + 1], was[j := ValueOf(args[k])])
  {
    var xs, ys, a := args[..k], args[..k + 1], args[k];
    assert ys[..k] == xs && ys[k] == a;
    forall i | 0 <= i < |ys| ensures Known(opts, ys[i]) {
      if i < k { assert ys[i] == xs[i]; }
    }
    forall i | 0 <= i < |opts| && i != j ensures !Names(opts, i, a) {
      assert NameOf(a) in opts[j].names;
    }
  }

  lemma {:induction false} CountGrows(opts: seq<Opt>, j: int, args: seq<string>, k: nat)
    requires k <= |args|
    ensures Count(opts, j, args[..k]) <= Count(opts, j, args)
  {
    if k == |args| {
      assert args[..k] == args;
    } else {
      var init := args[..|args| - 1];
      CountGrows(opts, j, init, k);
      assert init[..k] == args[..k];
    }
  }

  /** A pair that no option may take any more, or that names a flag, spoils the arguments. */
  lemma Refused(opts: seq<Opt>, before: seq<string>, args: seq<string>, k: nat, counts: seq<nat>, bound: seq<string>)
    requires WellNamed(opts) && k < |args| && ReadSoFar(opts, before, args, k, counts, bound)
    requires
      || (forall j :: 0 <= j < |opts| && MayRepeat(opts[j], counts[j]) ==> !Names(opts, j, args[k]))
      || (exists j :: Names(opts, j, args[k]) && opts[j].isFlag)
    ensures !Accepts(opts, args)
  {
    if Known(opts, args[k]) {
      var j :| Names(opts, j, args[k]) && !opts[j].isFlag;
      assert args[..k + 1][..k] == args[..k];
      CountGrows(opts, j, args, k + 1);
      assert !CountIsRight(opts[j], Count(opts, j, args));
    }
  }

  lemma ReadNothing(opts: seq<Opt>, before: seq<string>, args: seq<string>, counts: seq<nat>)
    requires |before| == |counts| == |opts| && forall j :: 0 <= j < |opts| ==> counts[j] == 0
    ensures ReadSoFar(opts, before, args, 0, counts, before)
  {
  }

  /** When all has been read, the final check of the counts decides. */
  lemma ReadAll(opts: seq<Opt>, before: seq<string>, args: seq<string>, counts: seq<nat>, bound: seq<string>)
    requires ReadSoFar(opts, before, args, |args|, counts, bound)
    ensures |counts| == |opts| && BoundTo(opts, before, args, bound)
    ensures Accepts(opts, args) <==> forall j :: 0 <= j < |opts| ==> CountIsRight(opts[j], counts[j])
  {
    assert args[..|args|] == args;
  }

  // ----------------------------------------------------------------------------------------
  // The result in terms of names and values
  // ----------------------------------------------------------------------------------------

  /** `args[k]` is `ns[k]=vs[k]` for every k. */
  predicate IsJoined(args: seq<string>, ns: seq<string>, vs: seq<string>) {
    |args| == |ns| == |vs| && forall k :: 0 <= k < |args| ==> IsLongName(ns[k]) && args[k] == Pair(ns[k], vs[k])
  }

  /** How many of `ns` are names of option `o`. */
  function TimesNamed(o: Opt, ns: seq<string>): nat {
    if ns == [] then 0 else TimesNamed(o, ns[..|ns| - 1]) + (if ns[|ns| - 1] in o.names then 1 else 0)
  }

  ghost predicate IsKnownName(opts: seq<Opt>, n: string) {
    exists j :: 0 <= j < |opts| && !opts[j].isFlag && n in opts[j].names
  }

  /** The option is named no less than its minimum and no more than its maximum, if it has one. */
  predicate TimesAreRight(o: Opt, ns: seq<string>) {
    o.minimum <= TimesNamed(o, ns) && (o.maximum == 0 || TimesNamed(o, ns) <= o.maximum)
  }

  /** Every name belongs to an option that takes a value, and every option is named often enough and
      not too often. */
  ghost predicate NamesAreRight(opts: seq<Opt>, ns: seq<string>) {
    && (forall k :: 0 <= k < |ns| ==> IsKnownName(opts, ns[k]))
    && (forall j :: 0 <= j < |opts| ==> TimesAreRight(opts[j], ns))
  }

  /** A variable that is named holds the value behind the last of its names, any other what it held. */
  ghost predicate HoldsValues(opts: seq<Opt>, before: seq<string>, ns: seq<string>, vs: seq<string>, after: seq<string>)
    requires |ns| == |vs|
  {
    && |after| == |before| == |opts|
    && (forall j, k :: 0 <= j < |opts| && 0 <= k < |ns| && IsLastName(opts[j], ns, k) ==> after[j] == vs[k])
    && (forall j :: 0 <= j < |opts| && TimesNamed(opts[j], ns) == 0 ==> after[j] == before[j])
  }

  predicate IsLastName(o: Opt, ns: seq<string>, k: int) {
    0 <= k < |ns| && ns[k] in o.names && forall l :: k < l < |ns| ==> ns[l] !in o.names
  }

  lemma JoinedNames(opts: seq<Opt>, args: seq<string>, ns: seq<string>, vs: seq<string>, j: int, k: nat)
    requires IsJoined(args, ns, vs) && k < |args|
    ensures Names(opts, j, args[k]) <==> 0 <= j < |opts| && ns[k] in opts[j].names
    ensures IsPair(args[k]) && ValueOf(args[k]) == vs[k]
  {
    PairIsRead(ns[k], vs[k]);
  }

  lemma {:induction false} CountIsTimesNamed(opts: seq<Opt>, args: seq<string>, ns: seq<string>, vs: seq<string>,
                                             j: nat)
    requires IsJoined(args, ns, vs) && j < |opts|
    ensures Count(opts, j, args) == TimesNamed(opts[j], ns)
    decreases |args|
  {
    if args != [] {
      var n := |args| - 1;
      JoinedNames(opts, args, ns, vs, j, n);
      hide Names, IsLongName;
      CountIsTimesNamed(opts, args[..n], ns[..n], vs[..n], j);
    }
  }

  lemma {:induction false} BindingIsLast(opts: seq<Opt>, init: string, args: seq<string>, ns: seq<string>,
                                         vs: seq<string>, j: nat)
    requires IsJoined(args, ns, vs) && j < |opts|
    ensures TimesNamed(opts[j], ns) == 0 ==> Binding(opts, j, init, args) == init
    ensures forall k :: IsLastName(opts[j], ns, k) ==> Binding(opts, j, init, args) == vs[k]
    decreases |args|
  {
    if args != [] {
      var n := |args| - 1;
      JoinedNames(opts, args, ns, vs, j, n);
      hide Names, IsLongName;
      BindingIsLast(opts, init, args[..n], ns[..n], vs[..n], j);
      forall k | IsLastName(opts[j], ns, k) ensures Binding(opts, j, init, args) == vs[k] {
        assert k < n ==> IsLastName(opts[j], ns[..n], k);
      }
    }
  }

  /** A count is right if it is not below the minimum, nor above the maximum unless that is zero. */
  lemma CountIsRightMeans(o: Opt, count: nat)
    ensures CountIsRight(o, count) <==> o.minimum <= count && (o.maximum == 0 || count <= o.maximum)
  {
  }

  /** What acceptance and binding of pairs say about their names and values. */
  lemma JoinedResult(opts: seq<Opt>, before: seq<string>, args: seq<string>, ns: seq<string>, vs: seq<string>,
                     after: seq<string>)
    requires IsJoined(args, ns, vs)
    ensures ArePairs(args) && (Accepts(opts, args) <==> NamesAreRight(opts, ns))
    ensures BoundTo(opts, before, args, after) ==> HoldsValues(opts, before, ns, vs, after)
  {
    hide IsLongName, CountIsRight, IsPair, TimesAreRight, IsKnownName, Known;
    forall k | 0 <= k < |args| ensures IsPair(args[k]) && (Known(opts, args[k]) <==> IsKnownName(opts, ns[k])) {
      JoinedKnown(opts, args, ns, vs, k);
    }
    forall j | 0 <= j < |opts|
      ensures CountIsRight(opts[j], Count(opts, j, args)) <==> TimesAreRight(opts[j], ns)
    {
      JoinedCount(opts, args, ns, vs, j);
    }
    if BoundTo(opts, before, args, after) {
      forall j | 0 <= j < |opts| { BindingIsLast(opts, before[j], args, ns, vs, j); }
    }
  }

  lemma JoinedCount(opts: seq<Opt>, args: seq<string>, ns: seq<string>, vs: seq<string>, j: nat)
    requires IsJoined(args, ns, vs) && j < |opts|
    ensures CountIsRight(opts[j], Count(opts, j, args)) <==> TimesAreRight(opts[j], ns)
  {
    CountIsTimesNamed(opts, args, ns, vs, j);
    CountIsRightMeans(opts[j], Count(opts, j, args));
  }

  lemma JoinedKnown(opts: seq<Opt>, args: seq<string>, ns: seq<string>, vs: seq<string>, k: nat)
    requires IsJoined(args, ns, vs) && k < |args|
    ensures IsPair(args[k]) && (Known(opts, args[k]) <==> IsKnownName(opts, ns[k]))
  {
    JoinedNames(opts, args, ns, vs, 0, k);
    if Known(opts, args[k]) {
      var j :| Names(opts, j, args[k]) && !opts[j].isFlag;
      JoinedNames(opts, args, ns, vs, j, k);
    }
    if j :| 0 <= j < |opts| && !opts[j].isFlag && ns[k] in opts[j].names {
      JoinedNames(opts, args, ns, vs, j, k);
    }
  }

  class Cli {
    const opts: seq<Opt>
    var bound: seq<string>   // the variables the options are bound to; a flag reads "true" once set

    ghost predicate Valid()
      reads this
    {
      |bound| == |opts|
    }

    constructor (opts: seq<Opt>, defaults: seq<string>)
      requires |defaults| == |opts|
      ensures Valid() && this.opts == opts && bound == defaults
    {
      this.opts, bound := opts, defaults;
    }

    /** The place `t` names option `j`: it holds an option, and the name is one of its own. */
    predicate NamedAt(j: nat, t: Tokens)
      requires j < |opts| && t.Valid()
    {
      t.Option().Option? && t.Option().name in opts[j].names
    }

    /** What option `j` makes of the place `t`, and the text it stores, if any. */
    function Try(j: nat, t: Tokens): (r: (Outcome, Option<string>))
      requires j < |opts| && t.Valid() && t.More()
      ensures r.0.Success? && r.0.kind == Matched ==> r.0.rest.Valid() && r.0.rest.args == t.args && r.0.rest.Beyond(t)
      ensures r.0.Success? ==> r.0.kind in {Matched, NoMatch}
      ensures r.0 == Failure(None) <==> !Validates(opts[j])
      ensures Validates(opts[j]) ==> (r.0 == Success(NoMatch, t) <==> !NamedAt(j, t))
      ensures Validates(opts[j]) && NamedAt(j, t) ==>
                && (r.0 == Failure(Some(ShortCircuit)) <==> opts[j].isFlag && t.HasDelimiter())
                && (r.0 == Failure(Some(NoMatch)) <==> !opts[j].isFlag && t.Value().Unknown?)
                && (r.0.Success? ==> r.0 == Success(Matched, if opts[j].isFlag then t.PopFlag() else t.PopValue()))
      ensures r.1 == if r.0.Success? && r.0.kind == Matched
                     then Some(if opts[j].isFlag then "true" else t.Value().name)
                     else None
    {
      assert (t.HasLong() || t.HasShort()) && IsMatch(opts[j], t.Option().name) <==> NamedAt(j, t) by {
        if t.HasLong() || t.HasShort() { MatchIsMembership(opts[j], t.Option().name); }
      }
      if !Validates(opts[j]) then (Failure(None), None)
      else if (t.HasLong() || t.HasShort()) && IsMatch(opts[j], t.Option().name) then
        if opts[j].isFlag then
          if t.HasDelimiter() then (Failure(Some(ShortCircuit)), None)
          else (Success(Matched, t.PopFlag()), Some("true"))
        else if t.Value().Unknown? then (Failure(Some(NoMatch)), None)
        else (Success(Matched, t.PopValue()), Some(t.Value().name))
      else (Success(NoMatch, t), None)
    }

    /** `opt::parse` of option `j`: as `Try` says, storing into the bound variable. */
    method ParseOption(j: nat, t: Tokens) returns (r: Outcome)
      requires Valid() && j < |opts| && t.Valid() && t.More()
      modifies this
      ensures Valid() && r == Try(j, t).0
      ensures bound == match Try(j, t).1 case Some(v) => old(bound)[j := v] case None => old(bound)
    {
      if !Validates(opts[j]) {
        return Failure(None);
      }
      if t.HasLong() || t.HasShort() {
        var token := t.Option();
        if IsMatch(opts[j], token.name) {
          if opts[j].isFlag {
            if t.HasDelimiter() {
              return Failure(Some(ShortCircuit));
            }
            bound := bound[j := "true"];
            return Success(Matched, t.PopFlag());
          }
          var argToken := t.Value();
          if argToken.Unknown? {
            return Failure(Some(NoMatch));
          }
          bound := bound[j := argToken.name];
          return Success(Matched, t.PopValue());
        }
      }
      r := Success(NoMatch, t);
    }

    lemma TryPair(j: nat, t: Tokens)
      requires WellNamed(opts) && j < |opts| && t.Valid() && t.More() && IsPair(t.args[t.i])
      ensures Try(j, t) == if !Names(opts, j, t.args[t.i]) then (Success(NoMatch, t), None)
                           else if opts[j].isFlag then (Failure(Some(ShortCircuit)), None)
                           else (Success(Matched, Tokens(t.args, t.i + 1, SHORT_SIZE)), Some(ValueOf(t.args[t.i])))
    {
      PairTokens(t);
      MatchIsMembership(opts[j], NameOf(t.args[t.i]));
    }

    /** Option `j` leaves the place `t` to the next ones: it may not occur any more, does not match, or
        fails without stopping everything. */
    predicate Passes(j: nat, t: Tokens, counts: seq<nat>)
      requires j < |opts| == |counts| && t.Valid() && t.More()
    {
      MayRepeat(opts[j], counts[j]) ==>
        if Try(j, t).0.Failure? then Try(j, t).0.at != Some(ShortCircuit) else Try(j, t).0.kind == NoMatch
    }

    /** The first `n` options leave the place to the next ones. */
    predicate AllPass(n: nat, t: Tokens, counts: seq<nat>)
      requires n <= |opts| == |counts| && t.Valid() && t.More()
    {
      forall j :: 0 <= j < n ==> Passes(j, t, counts)
    }

    /** The first failure among the first `n` options. */
    function FirstError(n: nat, t: Tokens, counts: seq<nat>): Option<Outcome>
      requires n <= |opts| == |counts| && t.Valid() && t.More()
    {
      if n == 0 then None
      else if FirstError(n - 1, t, counts).Some? then FirstError(n - 1, t, counts)
      else if MayRepeat(opts[n - 1], counts[n - 1]) && Try(n - 1, t).0.Failure? then Some(Try(n - 1, t).0)
      else None
    }

    /** What one round over the options does at the place `t`, and to the bound variables: the first that
        matches takes the token, the first that stops everything stops, else nothing happens. */
    ghost predicate IsTurn(turn: Turn, t: Tokens, counts: seq<nat>, was: seq<string>, now: seq<string>)
      requires |opts| == |counts| == |was| && t.Valid() && t.More()
    {
      match turn
      case Taken(j, rest, error) =>
        && j < |opts| && MayRepeat(opts[j], counts[j]) && Try(j, t).0 == Success(Matched, rest) && Try(j, t).1.Some?
        && now == was[j := Try(j, t).1.value] && AllPass(j, t, counts) && error == FirstError(j, t, counts)
      case Nothing(error) =>
        now == was && AllPass(|opts|, t, counts) && error == FirstError(|opts|, t, counts)
      case Stopped(r) =>
        && now == was && r.Failure? && r.at == Some(ShortCircuit)
        && exists j :: 0 <= j < |opts| && MayRepeat(opts[j], counts[j]) && Try(j, t).0 == r && AllPass(j, t, counts)
    }

    /** One round over the options at the place `t`: the first that matches takes it. */
    method TryAll(t: Tokens, counts: seq<nat>) returns (turn: Turn)
      requires Valid() && t.Valid() && t.More() && |counts| == |opts|
      modifies this
      ensures Valid()
      ensures turn.Taken? ==> turn.j < |opts| && turn.rest.Valid() && turn.rest.args == t.args && turn.rest.Beyond(t)
      ensures turn.Stopped? ==> turn.r.Failure?
      ensures !turn.Stopped? && turn.error.Some? ==> turn.error.value.Failure?
      ensures IsTurn(turn, t, counts, old(bound), bound)
    {
      hide Try, MayRepeat, Names, IsPair, WellNamed, Tokens.Beyond;
      var error: Option<Outcome> := None;
      for j := 0 to |opts|
        invariant Valid()
        invariant error.Some? ==> error.value.Failure?
        invariant bound == old(bound) && AllPass(j, t, counts) && error == FirstError(j, t, counts)
      {
        if MayRepeat(opts[j], counts[j]) {
          var sub := ParseOption(j, t);
          if sub.Failure? {
            if sub.at == Some(ShortCircuit) {
              return Stopped(sub);
            }
            if error.None? {
              error := Some(sub);
            }
          } else if sub.kind != NoMatch {
            return Taken(j, sub.rest, error);
          }
        }
      }
      turn := Nothing(error);
    }

    lemma {:induction false} PairsFailNowhere(n: nat, t: Tokens, counts: seq<nat>)
      requires WellNamed(opts) && t.Valid() && t.More() && IsPair(t.args[t.i]) && n <= |opts| == |counts|
      requires AllPass(n, t, counts)
      ensures FirstError(n, t, counts).None?
      ensures forall j :: 0 <= j < n && MayRepeat(opts[j], counts[j]) ==> !Names(opts, j, t.args[t.i])
    {
      if n > 0 {
        hide Try;
        PairsFailNowhere(n - 1, t, counts);
        TryPair(n - 1, t);
        assert Passes(n - 1, t, counts);
      }
    }

    /** One round on a pair: the option with its name takes it if it may still occur, a flag stops the
        parse, else nothing happens. */
    lemma TurnOnPair(turn: Turn, t: Tokens, counts: seq<nat>, was: seq<string>, now: seq<string>)
      requires WellNamed(opts) && t.Valid() && t.More() && IsPair(t.args[t.i]) && |opts| == |counts| == |was|
      requires IsTurn(turn, t, counts, was, now)
      ensures var arg := t.args[t.i];
              match turn
              case Taken(j, rest, error) =>
                && Names(opts, j, arg) && !opts[j].isFlag && error.None?
                && rest == Tokens(t.args, t.i + 1, SHORT_SIZE) && now == was[j := ValueOf(arg)]
              case Nothing(error) =>
                && error.None? && now == was
                && forall j :: 0 <= j < |opts| && MayRepeat(opts[j], counts[j]) ==> !Names(opts, j, arg)
              case Stopped(_) =>
                now == was && exists j :: Names(opts, j, arg) && opts[j].isFlag
    {
      hide Try, FirstError;
      match turn
      case Taken(j, _, _) =>
        PairsFailNowhere(j, t, counts);
        TryPair(j, t);
      case Nothing(_) =>
        PairsFailNowhere(|opts|, t, counts);
      case Stopped(r) =>
        var j :| 0 <= j < |opts| && MayRepeat(opts[j], counts[j]) && Try(j, t).0 == r && AllPass(j, t, counts);
        TryPair(j, t);
    }

    /** What a round on a pair does to the state of the parse: one more pair is read, or the arguments
        are not acceptable. */
    lemma TurnReads(before: seq<string>, turn: Turn, t: Tokens, counts: seq<nat>, was: seq<string>, now: seq<string>)
      requires WellNamed(opts) && ArePairs(t.args) && t.Valid() && t.More() && |opts| == |counts| == |was|
      requires ReadSoFar(opts, before, t.args, t.i, counts, was) && IsTurn(turn, t, counts, was, now)
      ensures turn.Taken? ==>
                && turn.error.None? && turn.j < |opts| && turn.rest == Tokens(t.args, t.i + 1, SHORT_SIZE)
                && ReadSoFar(opts, before, t.args, t.i + 1, counts[turn.j := counts[turn.j] + 1], now)
      ensures turn.Nothing? ==> turn.error.None?
      ensures !turn.Taken? ==> !Accepts(opts, t.args)
    {
      hide ReadSoFar, WellNamed, Names, Accepts, IsPair, MayRepeat, Try, AllPass, FirstError;
      TurnOnPair(turn, t, counts, was, now);
      if turn.Taken? {
        ReadOne(opts, before, t.args, t.i, counts, was, turn.j);
      } else {
        Refused(opts, before, t.args, t.i, counts, was);
      }
    }

    /** The check that closes `arguments::parse_any`. */
    method CountsAreRight(counts: seq<nat>) returns (right: bool)
      requires |counts| == |opts|
      ensures right <==> forall j :: 0 <= j < |opts| ==> CountIsRight(opts[j], counts[j])
    {
      for j := 0 to |opts|
        invariant forall i :: 0 <= i < j ==> CountIsRight(opts[i], counts[i])
      {
        if !CountIsRight(opts[j], counts[j]) {
          return false;
        }
      }
      right := true;
    }

    /** `arguments::parse_any` over all of `args`. */
    method ParseAny(args: seq<string>) returns (r: Outcome)
      requires Valid()
      modifies this
      ensures Valid()
      ensures r.Success? ==> r.rest.Valid() && r.rest.args == args && r.kind in {Matched, EmptyMatch}
      ensures WellNamed(opts) && ArePairs(args) ==>
                && (r.Success? && !r.rest.More() <==> Accepts(opts, args))
                && (Accepts(opts, args) ==> BoundTo(opts, old(bound), args, bound))
    {
      hide ReadSoFar, WellNamed, Names, Accepts, BoundTo, ArePairs, CountIsRight, MayRepeat, IsTurn, IsPrefixed;
      hide Tokens.Beyond, Tokens.RestOfGroup, Tokens.HasShort;
      var counts := seq(|opts|, _ => 0);
      var kind, t := EmptyMatch, Tokens(args, 0, SHORT_SIZE);
      var nomatch: Option<Outcome>, end: Option<Outcome> := None, None;
      ghost var before := bound;
      ghost var easy := WellNamed(opts) && ArePairs(args);
      Begins(args);
      ReadNothing(opts, before, args, counts);
      while t.More()
        invariant Valid() && t.Valid() && t.args == args && |counts| == |opts| && kind in {Matched, EmptyMatch}
        invariant (nomatch.Some? ==> nomatch.value.Failure?) && end.None?
        invariant easy ==> nomatch.None? && ReadSoFar(opts, before, args, t.i, counts, bound)
        decreases |args| - t.i, t.RestOfGroup()
      {
        ghost var was := bound;
        var turn := TryAll(t, counts);
        if easy { TurnReads(before, turn, t, counts, was, bound); }
        match turn {
          case Stopped(stop) =>
            end := Some(stop);
            break;
          case Nothing(error) =>
            if nomatch.None? {
              nomatch := error;
            }
            end := nomatch;
            break;
          case Taken(j, rest, error) =>
            BeyondLeavesLess(t, rest);
            if nomatch.None? {
              nomatch := error;
            }
            kind, t := Matched, rest;
            counts := counts[j := counts[j] + 1];
        }
      }
      assert easy && t.More() ==> !Accepts(opts, args);
      if easy && !t.More() { ReadAll(opts, before, args, counts, bound); }
      var right := CountsAreRight(counts);
      r := if end.Some? then end.value else if right then Success(kind, t) else Failure(Some(kind));
    }

    lemma Begins(args: seq<string>)
      ensures Tokens(args, 0, SHORT_SIZE).Valid()
    {
    }

    /** `cli::parse`: what is left over is an unrecognised token. */
    method Parse(args: seq<string>) returns (r: Outcome)
      requires Valid()
      modifies this
      ensures Valid()
      ensures r.Success? ==> !r.rest.More()
      ensures WellNamed(opts) && ArePairs(args) ==> (r.Success? <==> Accepts(opts, args))
      ensures WellNamed(opts) && ArePairs(args) && r.Success? ==> BoundTo(opts, old(bound), args, bound)
      ensures WellNamed(opts) ==> forall ns, vs :: IsJoined(args, ns, vs) ==>
                && (r.Success? <==> NamesAreRight(opts, ns))
                && (r.Success? ==> HoldsValues(opts, old(bound), ns, vs, bound))
    {
      r := ParseAny(args);
      forall ns, vs | IsJoined(args, ns, vs)
        ensures ArePairs(args) && (Accepts(opts, args) <==> NamesAreRight(opts, ns))
        ensures BoundTo(opts, old(bound), args, bound) ==> HoldsValues(opts, old(bound), ns, vs, bound)
      {
        JoinedResult(opts, old(bound), args, ns, vs, bound);
      }
      hide Accepts, BoundTo, NamesAreRight, HoldsValues, IsJoined, ArePairs, WellNamed;
      if r.Success? && r.kind in {NoMatch, Matched, EmptyMatch} && r.rest.More() {
        return Failure(Some(r.kind));
      }
    }
  }

  // ----------------------------------------------------------------------------------------
  // What acceptance and binding mean
  // ----------------------------------------------------------------------------------------

  /** Options that may occur at most once and need not: accepted if and only if every name is known
      and none repeats. */
  lemma OnceEachAccepts(opts: seq<Opt>, args: seq<string>)
    requires forall j :: 0 <= j < |opts| ==> opts[j].minimum == 0 && opts[j].maximum == 1
    ensures Accepts(opts, args) <==>
            && AllKnown(opts, args)
            && forall k, l, j :: 0 <= k < l < |args| && Names(opts, j, args[k]) ==> !Names(opts, j, args[l])
  {
    if Accepts(opts, args) {
      forall k, l, j | 0 <= k < l < |args| && Names(opts, j, args[k]) ensures !Names(opts, j, args[l]) {
        if Names(opts, j, args[l]) { TwoCounts(opts, j, args, k, l); }
      }
    }
    forall j | 0 <= j < |opts| && Count(opts, j, args) > 1
      ensures exists k, l :: 0 <= k < l < |args| && Names(opts, j, args[k]) && Names(opts, j, args[l])
    {
      var k, l := TwoPlaces(opts, j, args);
    }
  }

  lemma TwoCounts(opts: seq<Opt>, j: int, args: seq<string>, k: nat, l: nat)
    requires k < l < |args| && Names(opts, j, args[k]) && Names(opts, j, args[l])
    ensures Count(opts, j, args) >= 2
  {
    CountGrows(opts, j, args, l + 1);
    CountGrows(opts, j, args[..l], k + 1);
    assert args[..l + 1][..l] == args[..l] && args[..l][..k + 1][..k] == args[..k] && args[..l][..k + 1][k] == args[k];
  }

  lemma {:induction false} OnePlace(opts: seq<Opt>, j: int, args: seq<string>) returns (k: nat)
    requires Count(opts, j, args) >= 1
    ensures k < |args| && Names(opts, j, args[k])
  {
    k := |args| - 1;
    if !Names(opts, j, args[k]) {
      k := OnePlace(opts, j, args[..k]);
    }
  }

  lemma {:induction false} TwoPlaces(opts: seq<Opt>, j: int, args: seq<string>) returns (k: nat, l: nat)
    requires Count(opts, j, args) >= 2
    ensures k < l < |args| && Names(opts, j, args[k]) && Names(opts, j, args[l])
  {
    l := |args| - 1;
    if Names(opts, j, args[l]) {
      k := OnePlace(opts, j, args[..l]);
    } else {
      k, l := TwoPlaces(opts, j, args[..l]);
    }
  }

  /** A variable named once holds exactly the text of that pair, wherever it stands; one that is not
      named is as before. */
  lemma {:induction false} BindingIsExact(opts: seq<Opt>, j: int, init: string, args: seq<string>)
    ensures Count(opts, j, args) == 0 ==> Binding(opts, j, init, args) == init
    ensures Count(opts, j, args) == 1 ==>
              forall a :: a in args && Names(opts, j, a) ==> Binding(opts, j, init, args) == ValueOf(a)
  {
    if args != [] {
      var front, last := args[..|args| - 1], args[|args| - 1];
      BindingIsExact(opts, j, init, front);
      assert args == front + [last];
      if Names(opts, j, last) && Count(opts, j, front) == 0 {
        forall a | a in front ensures !Names(opts, j, a) {
          NotNamed(opts, j, front, a);
        }
      }
    }
  }

  lemma NotNamed(opts: seq<Opt>, j: int, args: seq<string>, a: string)
    requires Count(opts, j, args) == 0 && a in args
    ensures !Names(opts, j, a)
  {
    var k :| 0 <= k < |args| && args[k] == a;
    CountGrows(opts, j, args, k + 1);
    assert args[..k + 1][k] == a;
  }

  // ----------------------------------------------------------------------------------------
  // The order of the arguments does not matter
  // ----------------------------------------------------------------------------------------

  lemma {:induction false} CountConcat(opts: seq<Opt>, j: int, xs: seq<string>, ys: seq<string>)
    ensures Count(opts, j, xs + ys) == Count(opts, j, xs) + Count(opts, j, ys)
  {
    if ys == [] {
      assert xs + ys == xs;
    } else {
      CountConcat(opts, j, xs, ys[..|ys| - 1]);
      assert (xs + ys)[..|xs + ys| - 1] == xs + ys[..|ys| - 1];
    }
  }

  lemma {:induction false} CountOfPermutation(opts: seq<Opt>, j: int, xs: seq<string>, ys: seq<string>)
    requires multiset(xs) == multiset(ys)
    ensures Count(opts, j, xs) == Count(opts, j, ys)
    decreases |xs|
  {
    if xs == [] {
      assert |multiset(ys)| == 0;
    } else {
      var init, a := xs[..|xs| - 1], xs[|xs| - 1];
      assert xs == init + [a] && a in multiset(ys);
      var i :| 0 <= i < |ys| && ys[i] == a;
      Remainders(init, a, ys, i);
      CountOfPermutation(opts, j, init, ys[..i] + ys[i + 1..]);
      CountWithout(opts, j, ys, i);
    }
  }

  lemma CountWithout(opts: seq<Opt>, j: int, ys: seq<string>, i: nat)
    requires i < |ys|
    ensures Count(opts, j, ys) == Count(opts, j, ys[..i] + ys[i + 1..]) + (if Names(opts, j, ys[i]) then 1 else 0)
  {
    var front := ys[..i + 1];
    assert front[..i] == ys[..i] && ys == front + ys[i + 1..];
    CountConcat(opts, j, front, ys[i + 1..]);
    CountConcat(opts, j, ys[..i], ys[i + 1..]);
  }

  lemma AcceptsPermuted(opts: seq<Opt>, xs: seq<string>, ys: seq<string>)
    requires multiset(xs) == multiset(ys) && Accepts(opts, xs)
    ensures Accepts(opts, ys)
  {
    forall k | 0 <= k < |ys| ensures Known(opts, ys[k]) {
      assert ys[k] in multiset(xs);
    }
    forall j | 0 <= j < |opts| ensures CountIsRight(opts[j], Count(opts, j, ys)) {
      CountOfPermutation(opts, j, xs, ys);
    }
  }

  /** Two orders of the same pairs are accepted together, and bind every variable that may occur at
      most once to the same text. (One that may occur more often takes its last value.) */
  lemma OrderDoesNotMatter(opts: seq<Opt>, before: seq<string>, xs: seq<string>, ys: seq<string>, u: seq<string>,
                           v: seq<string>)
    requires multiset(xs) == multiset(ys)
    ensures Accepts(opts, xs) <==> Accepts(opts, ys)
    ensures Accepts(opts, xs) && BoundTo(opts, before, xs, u) && BoundTo(opts, before, ys, v) ==>
              forall j :: 0 <= j < |opts| && opts[j].maximum == 1 ==> u[j] == v[j]
  {
    if Accepts(opts, xs) { AcceptsPermuted(opts, xs, ys); }
    if Accepts(opts, ys) { AcceptsPermuted(opts, ys, xs); }
    if Accepts(opts, xs) && BoundTo(opts, before, xs, u) && BoundTo(opts, before, ys, v) {
      forall j | 0 <= j < |opts| && opts[j].maximum == 1 ensures u[j] == v[j] {
        SameBinding(opts, j, before[j], xs, ys);
      }
    }
  }

  lemma SameBinding(opts: seq<Opt>, j: int, init: string, xs: seq<string>, ys: seq<string>)
    requires multiset(xs) == multiset(ys) && Count(opts, j, xs) <= 1
    ensures Binding(opts, j, init, xs) == Binding(opts, j, init, ys)
  {
    CountOfPermutation(opts, j, xs, ys);
    BindingIsExact(opts, j, init, xs);
    BindingIsExact(opts, j, init, ys);
    if Count(opts, j, xs) == 1 {
      var k := OnePlace(opts, j, xs);
      assert xs[k] in multiset(ys);
    }
  }
}
