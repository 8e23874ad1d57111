/** The argument and environment builder of the TM launcher
    (src/mca/plm/tm/plm_tm_module.c, launch_daemons): the decimal rank token
    written into the daemon's argv, the octal umask value, the `prte_setenv`
    helper, and the loop that prepends an install prefix to every PATH and
    LD_LIBRARY_PATH entry of the copied environment. */
module PlmTmEnv {
  import opened Util

  // ---------------------------------------------------------------------
  // Numbers rendered as text (the rank token, "0%o" for the umask)
  // ---------------------------------------------------------------------

  function DigitChar(d: nat): (c: char)
    requires d < 10
    ensures '0' <= c <= '9' && (c as int) - ('0' as int) == d
  {
    (('0' as int) + d) as char
  }

  predicate AllDigits(s: string) {
    forall k :: 0 <= k < |s| ==> '0' <= s[k] <= '9'
  }

  lemma DivFacts(n: nat, base: nat)
    requires 2 <= base <= n
    ensures n / base < n && n == (n / base) * base + n % base && n % base < base
  {
  }

  /** `n` written in base `base` (2..10) with no leading zeros. */
  function Digits(n: nat, base: nat): (s: string)
    requires 2 <= base <= 10
    ensures |s| > 0 && AllDigits(s)
    decreases n
  {
    if n < base then [DigitChar(n)]
    else
      DivFacts(n, base);
      Digits(n / base, base) + [DigitChar(n % base)]
  }

  /** Reads a string of base-`base` digits back as a number. */
  function ParseDigits(s: string, base: nat): nat
    requires 2 <= base <= 10 && AllDigits(s)
  {
    if s == [] then 0
    else ParseDigits(s[..|s| - 1], base) * base + ((s[|s| - 1] as int) - ('0' as int))
  }

  lemma ParseDigitsSnoc(t: string, d: nat, base: nat)
    requires 2 <= base <= 10 && AllDigits(t) && d < 10
    ensures AllDigits(t + [DigitChar(d)])
    ensures ParseDigits(t + [DigitChar(d)], base) == ParseDigits(t, base) * base + d
  {
    var s := t + [DigitChar(d)];
    assert s[..|s| - 1] == t;
  }

  /** Rendering in a base and parsing it back is the identity. */
  lemma {:induction false} ParseDigitsOfDigits(n: nat, base: nat)
    requires 2 <= base <= 10
    ensures ParseDigits(Digits(n, base), base) == n
    decreases n
  {
    if n >= base {
      var q, r := n / base, n % base;
      DivFacts(n, base);
      ParseDigitsOfDigits(q, base);
      var t := Digits(q, base);
      assert ParseDigits(t, base) == q;
      ParseDigitsSnoc(t, r, base);
      assert Digits(n, base) == t + [DigitChar(r)];
      assert ParseDigits(Digits(n, base), base) == q * base + r;
    } else {
      assert Digits(n, base) == [] + [DigitChar(n)];
      ParseDigitsSnoc([], n, base);
    }
  }

  /** The token that `prte_util_convert_vpid_to_string` yields for a daemon's rank. */
  function RankString(rank: nat): string {
    Digits(rank, 10)
  }

  /** The token is all decimal digits and reads back as the rank. */
  lemma RankStringParses(rank: nat)
    ensures AllDigits(RankString(rank)) && ParseDigits(RankString(rank), 10) == rank
  {
    ParseDigitsOfDigits(rank, 10);
  }

  /** Different ranks never get the same argv token. */
  lemma RankStringInjective(a: nat, b: nat)
    ensures RankString(a) == RankString(b) <==> a == b
  {
    RankStringParses(a);
    RankStringParses(b);
  }

  /** The value given to PRTE_DAEMON_UMASK_VALUE: `prte_asprintf(&var, "0%o", umask)`. */
  function UmaskString(mask: nat): (s: string)
    ensures |s| >= 2 && s[0] == '0' && AllDigits(s[1..])
    ensures ParseDigits(s[1..], 8) == mask
  {
    ParseDigitsOfDigits(mask, 8);
    assert ("0" + Digits(mask, 8))[1..] == Digits(mask, 8);
    "0" + Digits(mask, 8)
  }

  // ---------------------------------------------------------------------
  // Environment entries "NAME=value"
  // ---------------------------------------------------------------------

  const PathVar := "PATH"
  const LdLibraryPathVar := "LD_LIBRARY_PATH"
  const UmaskVar := "PRTE_DAEMON_UMASK_VALUE"

  /** A variable name as the environment uses it: no '=' inside. */
  predicate ValidName(name: string) {
    forall k :: 0 <= k < |name| ==> name[k] != '='
  }

  /** `e` is an entry for `name`: it starts with "name=" (the source's strncmp test). */
  predicate IsEntry(e: string, name: string) {
    |e| > |name| && e[..|name| + 1] == name + "="
  }

  function EntryValue(e: string, name: string): string
    requires IsEntry(e, name)
  {
    e[|name| + 1..]
  }

  /** No string is an entry for two different valid names. */
  lemma EntryExclusive(e: string, a: string, b: string)
    requires ValidName(a) && ValidName(b) && a != b
    requires IsEntry(e, a)
    ensures !IsEntry(e, b)
  {
    assert e[..|a|] == a by { assert e[..|a| + 1][..|a|] == e[..|a|]; }
    if |a| < |b| {
      assert e[|a|] == (a + "=")[|a|];
      assert (b + "=")[|a|] == b[|a|] != e[|a|];
    } else if |b| < |a| {
      assert (b + "=")[|b|] == '=';
      assert e[|b|] == a[|b|] != '=';
    } else {
      assert (b + "=")[..|b|] == b;
      assert e[..|b|] != b;
    }
  }

  /** "name=value" is an entry for `name` and carries `value`. */
  lemma MakeEntry(name: string, value: string)
    ensures IsEntry(name + "=" + value, name)
    ensures EntryValue(name + "=" + value, name) == value
  {
    var e := name + "=" + value;
    assert e[..|name| + 1] == name + "=";
    assert e[|name| + 1..] == value;
  }

  /** Index of the first entry for `name`, or |env| when there is none. */
  function FirstEntry(env: seq<string>, name: string): (k: nat)
    ensures k <= |env|
    ensures k < |env| ==> IsEntry(env[k], name)
    ensures forall j :: 0 <= j < k ==> !IsEntry(env[j], name)
  {
    if env == [] then 0
    else if IsEntry(env[0], name) then 0
    else 1 + FirstEntry(env[1..], name)
  }

  /** Index of the last entry for `name` below `i`, or -1 when there is none. */
  function LastEntryBefore(env: seq<string>, name: string, i: nat): (k: int)
    requires i <= |env|
    ensures -1 <= k < i
    ensures k >= 0 ==> IsEntry(env[k], name)
    ensures forall j :: k < j < i ==> !IsEntry(env[j], name)
  {
    if i == 0 then -1
    else if IsEntry(env[i - 1], name) then i - 1
    else LastEntryBefore(env, name, i - 1)
  }

  /** The value of the first entry for `name`, as `getenv` would see it. */
  function Lookup(env: seq<string>, name: string): Option<string> {
    var k := FirstEntry(env, name);
    if k < |env| then Some(EntryValue(env[k], name)) else None
  }

  /** Two environments whose entries at each index are entries for `name`
      at the same indices have the same first entry for `name`. */
  lemma {:induction false} FirstEntrySame(a: seq<string>, b: seq<string>, name: string)
    requires |a| == |b|
    requires forall k :: 0 <= k < |a| ==> (IsEntry(a[k], name) <==> IsEntry(b[k], name))
    ensures FirstEntry(a, name) == FirstEntry(b, name)
  {
    if a != [] && !IsEntry(a[0], name) {
      FirstEntrySame(a[1..], b[1..], name);
    }
  }

  /** `prte_setenv(name, value, true, &env)`: the first entry for `name` is
      overwritten in place; when there is none, "name=value" is appended. The
      helper's body is not part of this model: this is its assumed behaviour. */
  function SetEnv(name: string, value: string, env: seq<string>): (r: seq<string>)
    ensures |r| == if FirstEntry(env, name) < |env| then |env| else |env| + 1
  {
    var k := FirstEntry(env, name);
    if k < |env| then env[k := name + "=" + value] else env + [name + "=" + value]
  }

  /** Appending one entry keeps an existing first entry and otherwise makes
      the new entry the first one when it matches. */
  lemma {:induction false} FirstEntryAppend(env: seq<string>, x: string, name: string)
    ensures FirstEntry(env + [x], name)
         == if FirstEntry(env, name) < |env| then FirstEntry(env, name)
            else if IsEntry(x, name) then |env| else |env| + 1
  {
    if env != [] {
      assert (env + [x])[1..] == env[1..] + [x];
      if !IsEntry(env[0], name) {
        FirstEntryAppend(env[1..], x, name);
      }
    }
  }

  /** After SetEnv the variable reads back as the value that was set. */
  lemma SetEnvLookupSame(name: string, value: string, env: seq<string>)
    ensures Lookup(SetEnv(name, value, env), name) == Some(value)
  {
    var r := SetEnv(name, value, env);
    var k := FirstEntry(env, name);
    MakeEntry(name, value);
    if k < |env| {
      FirstEntrySame(env, r, name);
    } else {
      FirstEntryAppend(env, name + "=" + value, name);
    }
  }

  /** SetEnv leaves every other variable reading as before. */
  lemma SetEnvLookupOther(name: string, value: string, env: seq<string>, other: string)
    requires ValidName(name) && ValidName(other) && name != other
    ensures Lookup(SetEnv(name, value, env), other) == Lookup(env, other)
  {
    var r := SetEnv(name, value, env);
    var k := FirstEntry(env, name);
    MakeEntry(name, value);
    EntryExclusive(name + "=" + value, name, other);
    if k < |env| {
      EntryExclusive(env[k], name, other);
      FirstEntrySame(env, r, other);
    } else {
      FirstEntryAppend(env, name + "=" + value, other);
    }
  }

  // ---------------------------------------------------------------------
  // Prefix rewriting of PATH and LD_LIBRARY_PATH
  // ---------------------------------------------------------------------

  /** "name=prefix/base:old", the entry built by `prte_asprintf(&newenv, "%s/%s:%s", ...)`
      and handed to prte_setenv. */
  function Prepended(name: string, prefix: string, base: string, oldValue: string): string {
    name + "=" + (prefix + "/" + base + ":" + oldValue)
  }

  /** An entry for `name` replaced by the prefixed value of another entry
      for `name` is still an entry for exactly the same names. */
  lemma PrependedKeepsKind(name: string, prefix: string, base: string, e: string, src: string, other: string)
    requires ValidName(name) && ValidName(other) && IsEntry(e, name) && IsEntry(src, name)
    ensures IsEntry(Prepended(name, prefix, base, EntryValue(src, name)), other) <==> IsEntry(e, other)
  {
    var r := Prepended(name, prefix, base, EntryValue(src, name));
    MakeEntry(name, prefix + "/" + base + ":" + EntryValue(src, name));
    if name != other {
      EntryExclusive(r, name, other);
      EntryExclusive(e, name, other);
    }
  }

  lemma PathNamesValid()
    ensures ValidName(PathVar) && ValidName(LdLibraryPathVar) && PathVar != LdLibraryPathVar
  {
    assert PathVar[0] != LdLibraryPathVar[0];
  }

  /** Entry `k` of the environment once the rewriting loop has looked at
      entries 0..i-1: the first PATH entry holds the prefixed value of the
      last PATH entry seen so far (prte_setenv always overwrites the FIRST
      entry), likewise for LD_LIBRARY_PATH; everything else is as it was. */
  function RewriteAt(env: seq<string>, i: nat, k: nat, prefix: string, binBase: string, libBase: string): string
    requires i <= |env| && k < |env|
  {
    var lp := LastEntryBefore(env, PathVar, i);
    var ll := LastEntryBefore(env, LdLibraryPathVar, i);
    if k == FirstEntry(env, PathVar) && lp >= 0 then
      Prepended(PathVar, prefix, binBase, EntryValue(env[lp], PathVar))
    else if k == FirstEntry(env, LdLibraryPathVar) && ll >= 0 then
      Prepended(LdLibraryPathVar, prefix, libBase, EntryValue(env[ll], LdLibraryPathVar))
    else env[k]
  }

  /** The environment after the whole prefix loop (plm_tm_module.c:329-353). */
  function PrefixRewritten(env: seq<string>, prefix: string, binBase: string, libBase: string): seq<string> {
    RewrittenTo(env, |env|, prefix, binBase, libBase)
  }

  /** The environment once the loop has looked at entries 0..i-1. */
  function RewrittenTo(env: seq<string>, i: nat, prefix: string, binBase: string, libBase: string): seq<string>
    requires i <= |env|
  {
    seq(|env|, k requires 0 <= k < |env| => RewriteAt(env, i, k, prefix, binBase, libBase))
  }

  /** Away from the first LD_LIBRARY_PATH entry, RewriteAt depends only on
      the last PATH entry seen. */
  lemma RewriteAtAwayFromLd(env: seq<string>, i: nat, j: nat, k: nat, prefix: string, binBase: string, libBase: string)
    requires i <= |env| && j <= |env| && k < |env| && k != FirstEntry(env, LdLibraryPathVar)
    requires LastEntryBefore(env, PathVar, i) == LastEntryBefore(env, PathVar, j)
    ensures RewriteAt(env, i, k, prefix, binBase, libBase) == RewriteAt(env, j, k, prefix, binBase, libBase)
  {
  }

  /** Away from the first PATH entry, RewriteAt depends only on the last
      LD_LIBRARY_PATH entry seen. */
  lemma RewriteAtAwayFromPath(env: seq<string>, i: nat, j: nat, k: nat, prefix: string, binBase: string, libBase: string)
    requires i <= |env| && j <= |env| && k < |env| && k != FirstEntry(env, PathVar)
    requires LastEntryBefore(env, LdLibraryPathVar, i) == LastEntryBefore(env, LdLibraryPathVar, j)
    ensures RewriteAt(env, i, k, prefix, binBase, libBase) == RewriteAt(env, j, k, prefix, binBase, libBase)
  {
  }

  /** The loop rewrites entries only in place: every entry stays an entry for
      the same variable (PATH, LD_LIBRARY_PATH or any other valid name). */
  lemma RewriteAtKeepsKind(env: seq<string>, i: nat, k: nat, prefix: string, binBase: string, libBase: string, name: string)
    requires i <= |env| && k < |env| && ValidName(name)
    ensures IsEntry(RewriteAt(env, i, k, prefix, binBase, libBase), name) <==> IsEntry(env[k], name)
  {
    PathNamesValid();
    var lp := LastEntryBefore(env, PathVar, i);
    var ll := LastEntryBefore(env, LdLibraryPathVar, i);
    if k == FirstEntry(env, PathVar) && lp >= 0 {
      PrependedKeepsKind(PathVar, prefix, binBase, env[k], env[lp], name);
    } else if k == FirstEntry(env, LdLibraryPathVar) && ll >= 0 {
      PrependedKeepsKind(LdLibraryPathVar, prefix, libBase, env[k], env[ll], name);
    }
  }

  /** The loop's invariant: entry k of `cur` is RewriteAt(env, i, k). */
  ghost predicate RewrittenUpTo(env: seq<string>, cur: seq<string>, i: nat, prefix: string, binBase: string, libBase: string)
    requires i <= |env|
  {
    |cur| == |env| && forall k :: 0 <= k < |env| ==> cur[k] == RewriteAt(env, i, k, prefix, binBase, libBase)
  }

  /** Under the invariant, `cur` and `env` have PATH and LD_LIBRARY_PATH
      entries at the same indices, and entry i is still the original one. */
  lemma RewrittenUpToFacts(env: seq<string>, cur: seq<string>, i: nat, prefix: string, binBase: string, libBase: string)
    requires i < |env| && RewrittenUpTo(env, cur, i, prefix, binBase, libBase)
    ensures FirstEntry(cur, PathVar) == FirstEntry(env, PathVar)
    ensures FirstEntry(cur, LdLibraryPathVar) == FirstEntry(env, LdLibraryPathVar)
    ensures cur[i] == env[i]
  {
    PathNamesValid();
    forall k | 0 <= k < |env|
      ensures IsEntry(cur[k], PathVar) <==> IsEntry(env[k], PathVar)
      ensures IsEntry(cur[k], LdLibraryPathVar) <==> IsEntry(env[k], LdLibraryPathVar)
    {
      RewriteAtKeepsKind(env, i, k, prefix, binBase, libBase, PathVar);
      RewriteAtKeepsKind(env, i, k, prefix, binBase, libBase, LdLibraryPathVar);
    }
    FirstEntrySame(cur, env, PathVar);
    FirstEntrySame(cur, env, LdLibraryPathVar);
    if IsEntry(env[i], PathVar) {
      EntryExclusive(env[i], PathVar, LdLibraryPathVar);
    } else if IsEntry(env[i], LdLibraryPathVar) {
      EntryExclusive(env[i], LdLibraryPathVar, PathVar);
    }
  }

  /** Storing the prefixed value at the first PATH entry keeps the
      invariant, given where the entries lie. */
  lemma RewriteStepPathAt(env: seq<string>, cur: seq<string>, i: nat, f: nat, prefix: string, binBase: string, libBase: string)
    requires i < |env| && RewrittenUpTo(env, cur, i, prefix, binBase, libBase)
    requires f == FirstEntry(env, PathVar) && f <= i
    requires LastEntryBefore(env, PathVar, i + 1) == i
    requires LastEntryBefore(env, LdLibraryPathVar, i + 1) == LastEntryBefore(env, LdLibraryPathVar, i)
    ensures RewrittenUpTo(env, cur[f := Prepended(PathVar, prefix, binBase, EntryValue(env[i], PathVar))],
                          i + 1, prefix, binBase, libBase)
  {
    var next := cur[f := Prepended(PathVar, prefix, binBase, EntryValue(env[i], PathVar))];
    forall k | 0 <= k < |env|
      ensures next[k] == RewriteAt(env, i + 1, k, prefix, binBase, libBase)
    {
      if k != f {
        RewriteAtAwayFromPath(env, i + 1, i, k, prefix, binBase, libBase);
      }
    }
  }

  /** One iteration at a PATH entry keeps the invariant. */
  lemma RewriteStepPath(env: seq<string>, cur: seq<string>, i: nat, prefix: string, binBase: string, libBase: string,
                        v: string)
    requires i < |env| && RewrittenUpTo(env, cur, i, prefix, binBase, libBase)
    requires IsEntry(env[i], PathVar) && v == prefix + "/" + binBase + ":" + EntryValue(env[i], PathVar)
    ensures RewrittenUpTo(env, SetEnv(PathVar, v, cur), i + 1, prefix, binBase, libBase)
  {
    PathNamesValid();
    RewrittenUpToFacts(env, cur, i, prefix, binBase, libBase);
    EntryExclusive(env[i], PathVar, LdLibraryPathVar);
    var f := FirstEntry(env, PathVar);
    assert f <= i;
    assert SetEnv(PathVar, v, cur) == cur[f := PathVar + "=" + v];
    assert PathVar + "=" + v == Prepended(PathVar, prefix, binBase, EntryValue(env[i], PathVar));
    assert LastEntryBefore(env, PathVar, i + 1) == i;
    assert LastEntryBefore(env, LdLibraryPathVar, i + 1) == LastEntryBefore(env, LdLibraryPathVar, i);
    RewriteStepPathAt(env, cur, i, f, prefix, binBase, libBase);
  }

  /** Storing the prefixed value at the first LD_LIBRARY_PATH entry keeps
      the invariant, given where the entries lie. */
  lemma RewriteStepLdAt(env: seq<string>, cur: seq<string>, i: nat, f: nat, prefix: string, binBase: string, libBase: string)
    requires i < |env| && RewrittenUpTo(env, cur, i, prefix, binBase, libBase)
    requires f == FirstEntry(env, LdLibraryPathVar) && f <= i && f != FirstEntry(env, PathVar)
    requires LastEntryBefore(env, LdLibraryPathVar, i + 1) == i
    requires LastEntryBefore(env, PathVar, i + 1) == LastEntryBefore(env, PathVar, i)
    ensures RewrittenUpTo(env, cur[f := Prepended(LdLibraryPathVar, prefix, libBase, EntryValue(env[i], LdLibraryPathVar))],
                          i + 1, prefix, binBase, libBase)
  {
    var next := cur[f := Prepended(LdLibraryPathVar, prefix, libBase, EntryValue(env[i], LdLibraryPathVar))];
    forall k | 0 <= k < |env|
      ensures next[k] == RewriteAt(env, i + 1, k, prefix, binBase, libBase)
    {
      if k != f {
        RewriteAtAwayFromLd(env, i + 1, i, k, prefix, binBase, libBase);
      }
    }
  }

  /** One iteration at an LD_LIBRARY_PATH entry keeps the invariant. */
  lemma RewriteStepLd(env: seq<string>, cur: seq<string>, i: nat, prefix: string, binBase: string, libBase: string,
                        v: string)
    requires i < |env| && RewrittenUpTo(env, cur, i, prefix, binBase, libBase)
    requires IsEntry(env[i], LdLibraryPathVar) && v == prefix + "/" + libBase + ":" + EntryValue(env[i], LdLibraryPathVar)
    ensures RewrittenUpTo(env, SetEnv(LdLibraryPathVar, v, cur), i + 1, prefix, binBase, libBase)
  {
    PathNamesValid();
    RewrittenUpToFacts(env, cur, i, prefix, binBase, libBase);
    EntryExclusive(env[i], LdLibraryPathVar, PathVar);
    var f := FirstEntry(env, LdLibraryPathVar);
    assert f <= i;
    assert SetEnv(LdLibraryPathVar, v, cur) == cur[f := LdLibraryPathVar + "=" + v];
    assert LdLibraryPathVar + "=" + v == Prepended(LdLibraryPathVar, prefix, libBase, EntryValue(env[i], LdLibraryPathVar));
    assert LastEntryBefore(env, LdLibraryPathVar, i + 1) == i;
    assert LastEntryBefore(env, PathVar, i + 1) == LastEntryBefore(env, PathVar, i);
    assert f != FirstEntry(env, PathVar) by {
      if f == FirstEntry(env, PathVar) { EntryExclusive(env[f], LdLibraryPathVar, PathVar); }
    }
    RewriteStepLdAt(env, cur, i, f, prefix, binBase, libBase);
  }

  /** One iteration at any other entry keeps the invariant. */
  lemma RewriteStepOther(env: seq<string>, cur: seq<string>, i: nat, prefix: string, binBase: string, libBase: string)
    requires i < |env| && RewrittenUpTo(env, cur, i, prefix, binBase, libBase)
    requires !IsEntry(env[i], PathVar) && !IsEntry(env[i], LdLibraryPathVar)
    ensures RewrittenUpTo(env, cur, i + 1, prefix, binBase, libBase)
  {
    assert LastEntryBefore(env, PathVar, i + 1) == LastEntryBefore(env, PathVar, i);
    assert LastEntryBefore(env, LdLibraryPathVar, i + 1) == LastEntryBefore(env, LdLibraryPathVar, i);
  }

  /** The source skips "PATH=" and "LD_LIBRARY_PATH=" by their lengths. */
  lemma EntryValueAt(e: string, name: string, skip: nat)
    requires IsEntry(e, name) && skip == |name| + 1
    ensures skip <= |e| && e[skip..] == EntryValue(e, name)
  {
  }

  /** The loop's invariant holds of exactly one environment. */
  lemma RewrittenUpToIs(env: seq<string>, cur: seq<string>, i: nat, prefix: string, binBase: string, libBase: string)
    requires i <= |env|
    ensures RewrittenUpTo(env, RewrittenTo(env, i, prefix, binBase, libBase), i, prefix, binBase, libBase)
    ensures RewrittenUpTo(env, cur, i, prefix, binBase, libBase) ==> cur == RewrittenTo(env, i, prefix, binBase, libBase)
  {
  }

  /** The prefix loop of launch_daemons, run on the copied environment `env`
      in place, with `prte_setenv` as modelled by SetEnv. */
  method RewritePrefix(env: seq<string>, prefix: string, binBase: string, libBase: string)
    returns (cur: seq<string>)
    ensures cur == PrefixRewritten(env, prefix, binBase, libBase)
  {
    cur := env;
    var i := 0;
    RewrittenUpToIs(env, cur, 0, prefix, binBase, libBase);
    while i < |cur|
      invariant 0 <= i <= |env| == |cur|
      invariant cur == RewrittenTo(env, i, prefix, binBase, libBase)
    {
      RewrittenUpToIs(env, cur, i, prefix, binBase, libBase);
      RewrittenUpToFacts(env, cur, i, prefix, binBase, libBase);
      if IsEntry(cur[i], PathVar) {
        EntryValueAt(cur[i], PathVar, 5);
        var newenv := prefix + "/" + binBase + ":" + cur[i][5..];
        RewriteStepPath(env, cur, i, prefix, binBase, libBase, newenv);
        cur := SetEnv(PathVar, newenv, cur);
      } else if IsEntry(cur[i], LdLibraryPathVar) {
        EntryValueAt(cur[i], LdLibraryPathVar, 16);
        var newenv := prefix + "/" + libBase + ":" + cur[i][16..];
        RewriteStepLd(env, cur, i, prefix, binBase, libBase, newenv);
        cur := SetEnv(LdLibraryPathVar, newenv, cur);
      } else {
        RewriteStepOther(env, cur, i, prefix, binBase, libBase);
      }
      RewrittenUpToIs(env, cur, i + 1, prefix, binBase, libBase);
      i := i + 1;
    }
  }

  /** Rewriting changes neither the number of entries nor which variable
      each entry belongs to: no PATH is created when there was none. */
  lemma PrefixRewriteKeepsKinds(env: seq<string>, prefix: string, binBase: string, libBase: string, k: nat, name: string)
    requires k < |env| && ValidName(name)
    ensures |PrefixRewritten(env, prefix, binBase, libBase)| == |env|
    ensures IsEntry(PrefixRewritten(env, prefix, binBase, libBase)[k], name) <==> IsEntry(env[k], name)
  {
    RewriteAtKeepsKind(env, |env|, k, prefix, binBase, libBase, name);
  }

  /** Entries that belong to neither PATH nor LD_LIBRARY_PATH are untouched. */
  lemma PrefixRewriteKeepsOthers(env: seq<string>, prefix: string, binBase: string, libBase: string, k: nat)
    requires k < |env|
    requires !IsEntry(env[k], PathVar) && !IsEntry(env[k], LdLibraryPathVar)
    ensures PrefixRewritten(env, prefix, binBase, libBase)[k] == env[k]
  {
  }

  /** When the environment holds exactly one PATH entry, that entry becomes
      "PATH=prefix/bin_base:old"; LD_LIBRARY_PATH behaves the same way. */
  lemma PrefixRewriteSinglePath(env: seq<string>, prefix: string, binBase: string, libBase: string, k: nat)
    requires k < |env| && IsEntry(env[k], PathVar)
    requires forall j :: 0 <= j < |env| && j != k ==> !IsEntry(env[j], PathVar)
    ensures PrefixRewritten(env, prefix, binBase, libBase)[k]
         == Prepended(PathVar, prefix, binBase, EntryValue(env[k], PathVar))
  {
    assert FirstEntry(env, PathVar) == k;
    assert LastEntryBefore(env, PathVar, |env|) == k;
  }

  lemma PrefixRewriteSingleLd(env: seq<string>, prefix: string, binBase: string, libBase: string, k: nat)
    requires k < |env| && IsEntry(env[k], LdLibraryPathVar)
    requires forall j :: 0 <= j < |env| && j != k ==> !IsEntry(env[j], LdLibraryPathVar)
    ensures PrefixRewritten(env, prefix, binBase, libBase)[k]
         == Prepended(LdLibraryPathVar, prefix, libBase, EntryValue(env[k], LdLibraryPathVar))
  {
    PathNamesValid();
    EntryExclusive(env[k], LdLibraryPathVar, PathVar);
    assert FirstEntry(env, LdLibraryPathVar) == k;
    assert LastEntryBefore(env, LdLibraryPathVar, |env|) == k;
  }

  /** With two PATH entries at i < j, the first one receives the prefixed
      value of the second and the second keeps its old text. */
  lemma PrefixRewriteDuplicatePath(env: seq<string>, prefix: string, binBase: string, libBase: string, i: nat, j: nat)
    requires i < j < |env| && IsEntry(env[i], PathVar) && IsEntry(env[j], PathVar)
    requires forall m :: 0 <= m < |env| && m != i && m != j ==> !IsEntry(env[m], PathVar)
    ensures PrefixRewritten(env, prefix, binBase, libBase)[i]
         == Prepended(PathVar, prefix, binBase, EntryValue(env[j], PathVar))
    ensures PrefixRewritten(env, prefix, binBase, libBase)[j] == env[j]
  {
    PathNamesValid();
    EntryExclusive(env[j], PathVar, LdLibraryPathVar);
    assert FirstEntry(env, PathVar) == i;
    assert LastEntryBefore(env, PathVar, |env|) == j;
  }

  /** Any other valid variable reads the same after rewriting. */
  lemma PrefixRewriteLookupOther(env: seq<string>, prefix: string, binBase: string, libBase: string, name: string)
    requires ValidName(name) && name != PathVar && name != LdLibraryPathVar
    ensures Lookup(PrefixRewritten(env, prefix, binBase, libBase), name) == Lookup(env, name)
  {
    PathNamesValid();
    var r := PrefixRewritten(env, prefix, binBase, libBase);
    forall k | 0 <= k < |env| ensures IsEntry(r[k], name) <==> IsEntry(env[k], name) {
      RewriteAtKeepsKind(env, |env|, k, prefix, binBase, libBase, name);
    }
    FirstEntrySame(r, env, name);
    var f := FirstEntry(env, name);
    if f < |env| {
      EntryExclusive(env[f], name, PathVar);
      EntryExclusive(env[f], name, LdLibraryPathVar);
    }
  }

  /** A base PATH=/u and prefix /p with bin basename "bin": PATH becomes
      /p/bin:/u, HOME is untouched. */
  lemma PrefixRewriteExample()
    ensures PrefixRewritten(["PATH=/u", "HOME=/h"], "/p", "bin", "lib") == ["PATH=/p/bin:/u", "HOME=/h"]
  {
    var env := ["PATH=/u", "HOME=/h"];
    assert IsEntry(env[0], PathVar);
    assert !IsEntry(env[1], PathVar) by { assert env[1][0] != 'P'; }
    assert !IsEntry(env[1], LdLibraryPathVar) by { assert env[1][0] != 'L'; }
    PrefixRewriteSinglePath(env, "/p", "bin", "lib", 0);
    PrefixRewriteKeepsOthers(env, "/p", "bin", "lib", 1);
    assert EntryValue(env[0], PathVar) == "/u";
    var r := PrefixRewritten(env, "/p", "bin", "lib");
    assert r[0] == "PATH=/p/bin:/u";
    assert r[1] == "HOME=/h";
  }

  // ---------------------------------------------------------------------
  // The daemons' environment as a whole
  // ---------------------------------------------------------------------

  /** The environment handed to every tm_spawn of a round: a copy of the
      launch environment with the plm variable set to "rsh", the umask
      recorded, and, when the first app context has a prefix, PATH and
      LD_LIBRARY_PATH prefixed. */
  function DaemonEnv(launchEnv: seq<string>, plmVar: string, umask: nat, prefix: Option<string>,
                     binBase: string, libBase: string): seq<string>
  {
    var env := SetEnv(UmaskVar, UmaskString(umask), SetEnv(plmVar, "rsh", launchEnv));
    if prefix.Some? then PrefixRewritten(env, prefix.value, binBase, libBase) else env
  }

  /** The daemons see PRTE_DAEMON_UMASK_VALUE set to the octal umask. */
  lemma DaemonEnvUmask(launchEnv: seq<string>, plmVar: string, umask: nat, prefix: Option<string>,
                       binBase: string, libBase: string)
    ensures Lookup(DaemonEnv(launchEnv, plmVar, umask, prefix, binBase, libBase), UmaskVar)
         == Some(UmaskString(umask))
  {
    var env := SetEnv(UmaskVar, UmaskString(umask), SetEnv(plmVar, "rsh", launchEnv));
    SetEnvLookupSame(UmaskVar, UmaskString(umask), SetEnv(plmVar, "rsh", launchEnv));
    if prefix.Some? {
      assert ValidName(UmaskVar);
      assert UmaskVar != PathVar && UmaskVar != LdLibraryPathVar by {
        assert |UmaskVar| != |PathVar| && |UmaskVar| != |LdLibraryPathVar|;
      }
      PrefixRewriteLookupOther(env, prefix.value, binBase, libBase, UmaskVar);
    }
  }

  /** The daemons see the plm selection variable set to "rsh" (for a plm
      variable name other than the umask, PATH and LD_LIBRARY_PATH). */
  lemma DaemonEnvRsh(launchEnv: seq<string>, plmVar: string, umask: nat, prefix: Option<string>,
                     binBase: string, libBase: string)
    requires ValidName(plmVar) && plmVar != UmaskVar && plmVar != PathVar && plmVar != LdLibraryPathVar
    ensures Lookup(DaemonEnv(launchEnv, plmVar, umask, prefix, binBase, libBase), plmVar) == Some("rsh")
  {
    var env1 := SetEnv(plmVar, "rsh", launchEnv);
    var env := SetEnv(UmaskVar, UmaskString(umask), env1);
    SetEnvLookupSame(plmVar, "rsh", launchEnv);
    assert ValidName(UmaskVar);
    SetEnvLookupOther(UmaskVar, UmaskString(umask), env1, plmVar);
    if prefix.Some? {
      PrefixRewriteLookupOther(env, prefix.value, binBase, libBase, plmVar);
    }
  }

  /** Every other valid variable of the launch environment reaches the
      daemons unchanged; with a prefix set, PATH and LD_LIBRARY_PATH are
      the other variables the launcher touches. */
  lemma DaemonEnvKeepsOthers(launchEnv: seq<string>, plmVar: string, umask: nat, prefix: Option<string>,
                             binBase: string, libBase: string, name: string)
    requires ValidName(plmVar) && ValidName(name) && name != plmVar && name != UmaskVar
    requires prefix.Some? ==> name != PathVar && name != LdLibraryPathVar
    ensures Lookup(DaemonEnv(launchEnv, plmVar, umask, prefix, binBase, libBase), name) == Lookup(launchEnv, name)
  {
    assert ValidName(UmaskVar);
    var env1 := SetEnv(plmVar, "rsh", launchEnv);
    var env := SetEnv(UmaskVar, UmaskString(umask), env1);
    SetEnvLookupOther(plmVar, "rsh", launchEnv, name);
    SetEnvLookupOther(UmaskVar, UmaskString(umask), env1, name);
    if prefix.Some? {
      PrefixRewriteLookupOther(env, prefix.value, binBase, libBase, name);
    }
  }
}
