/** Chain references: their normal form, and how a client resolves them to a connected chain. */
module ChainAlias {
  import opened Common
  import opened Text

  // ----- Normalising, stage by stage -----

  predicate IsAlnum(c: char) { 'a' <= c <= 'z' || IsDigit(c) }

  predicate AllAlnum(s: string) { forall i :: 0 <= i < |s| ==> IsAlnum(s[i]) }

  predicate IsSeparator(c: char) { c == '-' || c == '_' || c == '/' }

  /** Each maximal run of characters in `p` becomes one blank. */
  function Squeeze(s: string, p: char -> bool): string {
    if s == "" then ""
    else if !p(s[0]) then [s[0]] + Squeeze(s[1..], p)
    else if |s| > 1 && p(s[1]) then Squeeze(s[1..], p)
    else " " + Squeeze(s[1..], p)
  }

  function Blank(s: string): (r: string)
    ensures |r| == |s|
  {
    if s == "" then "" else [if IsAlnum(s[0]) || IsSpace(s[0]) then s[0] else ' '] + Blank(s[1..])
  }

  function Normalize(s: string): string {
    Trim(Squeeze(Blank(Squeeze(LowerCase(Trim(s)), IsSeparator)), IsSpace))
  }

  // ----- The words of a string -----

  /** The maximal alphanumeric runs of `cur + s`, where `cur` is a run still open. */
  function Runs(cur: string, s: string): seq<string>
    decreases |s|
  {
    var closed := if cur == "" then [] else [cur];
    if s == "" then closed
    else if IsAlnum(s[0]) then Runs(cur + [s[0]], s[1..])
    else closed + Runs("", s[1..])
  }

  function Words(s: string): seq<string> { Runs("", LowerCase(s)) }

  function Join(ws: seq<string>): string {
    if ws == [] then "" else if |ws| == 1 then ws[0] else ws[0] + " " + Join(ws[1..])
  }

  predicate WordList(ws: seq<string>) { forall i :: 0 <= i < |ws| ==> ws[i] != "" && AllAlnum(ws[i]) }

  lemma {:induction false} RunsAreWords(cur: string, s: string)
    requires AllAlnum(cur)
    ensures WordList(Runs(cur, s))
    decreases |s|
  {
    if s != "" {
      if IsAlnum(s[0]) { RunsAreWords(cur + [s[0]], s[1..]); } else { RunsAreWords("", s[1..]); }
    }
  }

  lemma {:induction false} RunExtends(cur: string, w: string, rest: string)
    requires AllAlnum(w)
    ensures Runs(cur, w + rest) == Runs(cur + w, rest)
    decreases |w|
  {
    if w == "" {
      assert w + rest == rest && cur + w == cur;
    } else {
      assert (w + rest)[1..] == w[1..] + rest;
      RunExtends(cur + [w[0]], w[1..], rest);
      assert cur + [w[0]] + w[1..] == cur + w;
    }
  }

  lemma {:induction false} RunCloses(w: string, c: char, rest: string)
    requires !IsAlnum(c)
    ensures Runs(w, [c] + rest) == (if w == "" then [] else [w]) + Runs("", rest)
  {
    assert ([c] + rest)[1..] == rest;
  }

  /** Joining words and reading them back gives the words. */
  lemma {:induction false} RunsOfJoin(ws: seq<string>)
    requires WordList(ws)
    ensures Runs("", Join(ws)) == ws
  {
    if |ws| == 1 {
      RunExtends("", ws[0], "");
      assert ws[0] + "" == ws[0] && "" + ws[0] == ws[0];
    } else if ws != [] {
      var rest := Join(ws[1..]);
      RunExtends("", ws[0], [' '] + rest);
      assert Join(ws) == ws[0] + ([' '] + rest) && "" + ws[0] == ws[0];
      RunCloses(ws[0], ' ', rest);
      RunsOfJoin(ws[1..]);
    }
  }

  // ----- No stage changes the words -----

  lemma {:induction false} LowerCaseSplits(a: string, b: string)
    ensures LowerCase(a + b) == LowerCase(a) + LowerCase(b)
  {
    if a == "" {
      assert a + b == b;
    } else {
      assert (a + b)[1..] == a[1..] + b;
      LowerCaseSplits(a[1..], b);
    }
  }

  lemma LowerCaseOne(c: char)
    ensures LowerCase([c]) == LowerOf(c)
  {
    assert LowerCase([c]) == LowerOf(c) + LowerCase("");
  }

  lemma {:induction false} DropLast(cur: string, s: string, c: char)
    requires !IsAlnum(c)
    ensures Runs(cur, s + [c]) == Runs(cur, s)
    decreases |s|
  {
    if s == "" {
      assert (s + [c])[1..] == "";
    } else {
      assert (s + [c])[1..] == s[1..] + [c];
      if IsAlnum(s[0]) { DropLast(cur + [s[0]], s[1..], c); } else { DropLast("", s[1..], c); }
    }
  }

  lemma {:induction false} TrimStartKeepsWords(s: string)
    ensures Words(TrimStart(s)) == Words(s)
  {
    if s != "" && IsSpace(s[0]) {
      TrimStartKeepsWords(s[1..]);
      assert LowerCase(s) == [s[0]] + LowerCase(s[1..]);
      assert LowerCase(s)[1..] == LowerCase(s[1..]);
    }
  }

  lemma {:induction false} TrimEndKeepsWords(s: string)
    ensures Words(TrimEnd(s)) == Words(s)
  {
    var n := |s| - 1;
    if s != "" && IsSpace(s[n]) {
      TrimEndKeepsWords(s[..n]);
      assert s == s[..n] + [s[n]];
      LowerCaseSplits(s[..n], [s[n]]);
      LowerCaseOne(s[n]);
      DropLast("", LowerCase(s[..n]), s[n]);
    }
  }

  lemma {:induction false} TwoSeparators(cur: string, s: string)
    requires |s| > 1 && !IsAlnum(s[0]) && !IsAlnum(s[1])
    ensures Runs(cur, s) == Runs(cur, s[1..])
  {
    assert s[1..][0] == s[1];
    assert [] + Runs("", s[1..][1..]) == Runs("", s[1..][1..]);
  }

  lemma {:induction false} SqueezeKeepsRuns(cur: string, s: string, p: char -> bool)
    requires forall c :: p(c) ==> !IsAlnum(c)
    ensures Runs(cur, Squeeze(s, p)) == Runs(cur, s)
    decreases |s|
  {
    if s != "" {
      var t := s[1..];
      if !p(s[0]) {
        assert ([s[0]] + Squeeze(t, p))[1..] == Squeeze(t, p);
        SqueezeKeepsRuns(if IsAlnum(s[0]) then cur + [s[0]] else "", t, p);
      } else if |s| > 1 && p(s[1]) {
        SqueezeKeepsRuns(cur, t, p);
        TwoSeparators(cur, s);
      } else {
        assert (" " + Squeeze(t, p))[1..] == Squeeze(t, p);
        SqueezeKeepsRuns("", t, p);
      }
    }
  }

  lemma {:induction false} BlankKeepsRuns(cur: string, s: string)
    ensures Runs(cur, Blank(s)) == Runs(cur, s)
    decreases |s|
  {
    if s != "" {
      assert Blank(s)[1..] == Blank(s[1..]);
      BlankKeepsRuns(if IsAlnum(s[0]) then cur + [s[0]] else "", s[1..]);
    }
  }

  // ----- The last stages leave words with single blanks -----

  ghost predicate Lonely(s: string) {
    && (forall i :: 0 <= i < |s| ==> IsAlnum(s[i]) || s[i] == ' ')
    && (forall i, j :: 0 <= i < j < |s| && j == i + 1 ==> s[i] != ' ' || s[j] != ' ')
  }

  /** Only lower-case letters, digits and single blanks, none of them at an end. */
  ghost predicate Tidy(s: string) { Lonely(s) && (s != "" ==> s[0] != ' ' && s[|s| - 1] != ' ') }

  predicate AlnumOrSpace(s: string) { forall i :: 0 <= i < |s| ==> IsAlnum(s[i]) || IsSpace(s[i]) }

  lemma {:induction false} BlankIsClean(s: string)
    ensures AlnumOrSpace(Blank(s))
  {
    if s != "" { BlankIsClean(s[1..]); }
  }

  lemma {:induction false} SqueezeIsLonely(s: string)
    requires AlnumOrSpace(s)
    ensures Lonely(Squeeze(s, IsSpace))
    ensures Squeeze(s, IsSpace) != "" <==> s != ""
    ensures s != "" ==> (Squeeze(s, IsSpace)[0] == ' ' <==> IsSpace(s[0]))
  {
    if s != "" { SqueezeIsLonely(s[1..]); }
  }

  lemma {:induction false} TrimStartTidies(s: string)
    requires Lonely(s)
    ensures Lonely(TrimStart(s)) && (TrimStart(s) != "" ==> TrimStart(s)[0] != ' ')
  {
    if s != "" && IsSpace(s[0]) { TrimStartTidies(s[1..]); }
  }

  lemma {:induction false} TrimEndTidies(s: string)
    requires Lonely(s) && (s != "" ==> s[0] != ' ')
    ensures Tidy(TrimEnd(s))
  {
    if s != "" && IsSpace(s[|s| - 1]) { TrimEndTidies(s[..|s| - 1]); }
  }

  lemma {:induction false} JoinMore(w: string, ws: seq<string>)
    requires ws != []
    ensures Join([w] + ws) == w + " " + Join(ws)
  {
    assert ([w] + ws)[1..] == ws;
  }

  lemma LonelyRest(s: string)
    requires Lonely(s) && s != ""
    ensures Lonely(s[1..]) && (IsAlnum(s[0]) || s[0] == ' ')
    ensures s[|s| - 1] != ' ' && s[0] == ' ' ==> s[1..] != "" && s[1..][0] != ' '
  {
    assert forall i :: 0 <= i < |s| - 1 ==> s[1..][i] == s[i + 1];
  }

  lemma {:induction false} TidyIsJoined(cur: string, s: string)
    requires AllAlnum(cur) && Lonely(s)
    requires s != "" ==> s[|s| - 1] != ' ' && (cur == "" ==> s[0] != ' ')
    ensures cur + s == Join(Runs(cur, s))
    decreases |s|
  {
    if s == "" {
      assert cur + s == cur;
    } else {
      LonelyRest(s);
      var t := s[1..];
      assert t != "" ==> t[|t| - 1] == s[|s| - 1];
      if IsAlnum(s[0]) {
        TidyIsJoined(cur + [s[0]], t);
        assert cur + s == cur + [s[0]] + t;
      } else {
        TidyIsJoined("", t);
        JoinAfterBlank(cur, s);
      }
    }
  }

  lemma {:induction false} JoinAfterBlank(cur: string, s: string)
    requires cur != "" && |s| > 1 && s[0] == ' ' && "" + s[1..] == Join(Runs("", s[1..]))
    ensures cur + s == Join(Runs(cur, s))
  {
    RunCloses(cur, ' ', s[1..]);
    JoinMore(cur, Runs("", s[1..]));
  }

  lemma {:induction false} LowerCaseFixes(s: string)
    requires forall i :: 0 <= i < |s| ==> IsAlnum(s[i]) || s[i] == ' '
    ensures LowerCase(s) == s
  {
    if s != "" { LowerCaseFixes(s[1..]); }
  }

  lemma NormalIsTidy(s: string)
    ensures Tidy(Normalize(s))
  {
    var b := Blank(Squeeze(LowerCase(Trim(s)), IsSeparator));
    BlankIsClean(Squeeze(LowerCase(Trim(s)), IsSeparator));
    SqueezeIsLonely(b);
    TrimStartTidies(Squeeze(b, IsSpace));
    TrimEndTidies(TrimStart(Squeeze(b, IsSpace)));
  }

  lemma NormalKeepsWords(s: string)
    ensures Runs("", Normalize(s)) == Words(s)
  {
    TrimStartKeepsWords(s);
    TrimEndKeepsWords(TrimStart(s));
    var l := LowerCase(Trim(s));
    SqueezeKeepsRuns("", l, IsSeparator);
    var q := Squeeze(l, IsSeparator);
    BlankKeepsRuns("", q);
    SqueezeKeepsRuns("", Blank(q), IsSpace);
    var f := Squeeze(Blank(q), IsSpace);
    TrimKeepsRuns(f, q);
  }

  lemma {:induction false} TrimKeepsRuns(f: string, q: string)
    requires f == Squeeze(Blank(q), IsSpace)
    ensures Runs("", Trim(f)) == Runs("", f)
  {
    BlankIsClean(q);
    SqueezeIsLonely(Blank(q));
    TrimStartKeepsWords(f);
    TrimEndKeepsWords(TrimStart(f));
    LowerCaseFixes(f);
    TrimStartTidies(f);
    TrimEndTidies(TrimStart(f));
    LowerCaseFixes(Trim(f));
  }

  /** The normal form is the lower-cased maximal alphanumeric runs, joined by single blanks. */
  lemma NormalIsJoinedWords(s: string)
    ensures Normalize(s) == Join(Words(s)) && WordList(Words(s))
  {
    NormalIsTidy(s);
    NormalKeepsWords(s);
    TidyIsJoined("", Normalize(s));
    assert "" + Normalize(s) == Normalize(s);
    RunsAreWords("", LowerCase(s));
  }

  /** Two references have the same normal form exactly if they have the same words. */
  lemma SameNormalForm(s: string, t: string)
    ensures Normalize(s) == Normalize(t) <==> Words(s) == Words(t)
  {
    NormalIsJoinedWords(s);
    NormalIsJoinedWords(t);
    RunsOfJoin(Words(s));
    RunsOfJoin(Words(t));
  }

  /** Normalising leaves exactly the tidy strings alone; hence it is idempotent. */
  lemma NormalExactlyTidy(s: string)
    ensures Normalize(s) == s <==> Tidy(s)
    ensures Normalize(Normalize(s)) == Normalize(s)
  {
    NormalIsTidy(s);
    TidyIsNormal(Normalize(s));
    if Tidy(s) { TidyIsNormal(s); }
  }

  lemma TidyIsNormal(s: string)
    requires Tidy(s)
    ensures Normalize(s) == s
  {
    LowerCaseFixes(s);
    NormalIsJoinedWords(s);
    TidyIsJoined("", s);
    assert "" + s == s;
  }

  // ----- Clients and alias tables -----

  /** A chain a reference can resolve to, with the family and environment inferred for it. */
  datatype Chain = Chain(name: string, id: Option<nat>, family: Option<string>, env: Option<string>)

  datatype Entry = Entry(family: string, generic: set<string>, testnet: set<string>, mainnet: set<string>)

  /** The normalised alias tables. */
  datatype Registry = Registry(connected: seq<Entry>, dexalot: set<string>)

  datatype Group = Group(family: string, env: Option<string>)

  datatype Client = Client(connected: seq<Chain>, active: Option<nat>, subnet: Option<nat>)

  datatype Refusal = EmptyReference | NoChains | NotRecognized | WrongEnvironment | Ambiguous

  const DEXALOT_L1 := "Dexalot L1"

  function DexalotL1(c: Client): Chain { Chain(DEXALOT_L1, c.subnet, None, None) }

  function Resolvable(c: Client, l1: bool): seq<Chain> { (if l1 then [DexalotL1(c)] else []) + c.connected }

  /** The keys of a configuration object are distinct. */
  predicate DistinctNames(s: seq<Chain>) { forall i, j :: 0 <= i < j < |s| ==> s[i].name != s[j].name }

  predicate DistinctIds(s: seq<Chain>) {
    forall i, j :: 0 <= i < j < |s| ==> s[i].id.None? || s[i].id != s[j].id
  }

  function Find(s: seq<Chain>, p: Chain -> bool): (r: Option<Chain>)
    ensures r.Some? ==> r.value in s && p(r.value)
    ensures r.None? ==> forall c :: c in s ==> !p(c)
  {
    if s == [] then None else if p(s[0]) then Some(s[0]) else Find(s[1..], p)
  }

  function Filter(s: seq<Chain>, p: Chain -> bool): (r: seq<Chain>)
    ensures forall c :: c in r <==> c in s && p(c)
  {
    if s == [] then [] else (if p(s[0]) then [s[0]] else []) + Filter(s[1..], p)
  }

  /** `Map.set` by name: a later chain takes the place of an earlier one of the same name. */
  function PutByName(s: seq<Chain>, c: Chain): seq<Chain> {
    if s == [] then [c] else if s[0].name == c.name then [c] + s[1..] else [s[0]] + PutByName(s[1..], c)
  }

  function Dedupe(s: seq<Chain>): seq<Chain> {
    if s == [] then [] else PutByName(Dedupe(s[..|s| - 1]), s[|s| - 1])
  }

  function EntryGroups(e: Entry, n: string): seq<Group> {
    (if n in e.generic then [Group(e.family, None)] else [])
    + (if n in e.testnet then [Group(e.family, Some("testnet"))] else [])
    + (if n in e.mainnet then [Group(e.family, Some("mainnet"))] else [])
  }

  function Groups(es: seq<Entry>, n: string): seq<Group> {
    if es == [] then [] else Groups(es[..|es| - 1], n) + EntryGroups(es[|es| - 1], n)
  }

  predicate Fits(c: Chain, g: Group) { c.family == Some(g.family) && (g.env.None? || c.env == g.env) }

  predicate FitsSome(c: Chain, gs: seq<Group>) { exists g :: g in gs && Fits(c, g) }

  predicate HasId(c: Chain, n: string) { c.id.Some? && Decimal(c.id.value) == n }

  // The predicates the lookups filter by.

  function Fitting(gs: seq<Group>): Chain -> bool { (c: Chain) => FitsSome(c, gs) }

  function WithId(n: string): Chain -> bool { (c: Chain) => HasId(c, n) }

  function Active(id: Option<nat>): Chain -> bool { (c: Chain) => c.id == id }

  function Named(name: string): Chain -> bool { (c: Chain) => c.name == name }

  function NormallyNamed(n: string): Chain -> bool { (c: Chain) => Normalize(c.name) == n }

  function Candidates(chains: seq<Chain>, gs: seq<Group>): seq<Chain> {
    Dedupe(Filter(chains, Fitting(gs)))
  }

  function Mismatch(chains: seq<Chain>, gs: seq<Group>): Refusal {
    if (exists c, g :: c in chains && g in gs && c.family == Some(g.family)) && (exists g :: g in gs && g.env.Some?)
    then WrongEnvironment else Ambiguous
  }

  function ByAlias(chains: seq<Chain>, active: Option<nat>, gs: seq<Group>): Result<Chain, Refusal> {
    if gs == [] then Failure(NotRecognized) else
    var cs := Candidates(chains, gs);
    if |cs| == 1 then Success(cs[0]) else
    match if active.None? then None else Find(cs, Active(active))
    case Some(c) => Success(c)
    case None => Failure(Mismatch(chains, gs))
  }

  function ByName(reg: Registry, client: Client, chains: seq<Chain>, n: string): Result<Chain, Refusal> {
    var exact := Filter(chains, NormallyNamed(n));
    if |exact| == 1 then Success(exact[0]) else ByAlias(chains, client.active, Groups(reg.connected, n))
  }

  function ById(reg: Registry, client: Client, chains: seq<Chain>, n: string): Result<Chain, Refusal> {
    match if AllDigits(n) then Find(chains, WithId(n)) else None
    case Some(c) => Success(c)
    case None => ByName(reg, client, chains, n)
  }

  function Resolve(reg: Registry, client: Client, l1: bool, reference: string): Result<Chain, Refusal> {
    var n := Normalize(reference);
    if n == "" then Failure(EmptyReference) else
    var chains := Resolvable(client, l1);
    if chains == [] then Failure(NoChains)
    else if l1 && n in reg.dexalot then
      assert chains[0].name == DEXALOT_L1;
      Success(Find(chains, Named(DEXALOT_L1)).value)
    else ById(reg, client, chains, n)
  }

  /** What the caller gets: the chain, and the reference as it was given. */
  datatype Resolved = Resolved(chain: Chain, matchedAlias: string)

  function ResolveReference(reg: Registry, client: Client, l1: bool, reference: string): Result<Resolved, Refusal> {
    match Resolve(reg, client, l1, reference)
    case Success(c) => Success(Resolved(c, reference))
    case Failure(f) => Failure(f)
  }

  // ----- What a reference resolves to -----

  lemma {:induction false} PutNew(s: seq<Chain>, c: Chain)
    requires forall d :: d in s ==> d.name != c.name
    ensures PutByName(s, c) == s + [c]
  {
    if s != [] { PutNew(s[1..], c); }
  }

  lemma {:induction false} DedupeDistinct(s: seq<Chain>)
    requires DistinctNames(s)
    ensures Dedupe(s) == s
  {
    if s != [] {
      var n := |s| - 1;
      DedupeDistinct(s[..n]);
      PutNew(s[..n], s[n]);
      assert s == s[..n] + [s[n]];
    }
  }

  lemma {:induction false} FilterDistinct(s: seq<Chain>, p: Chain -> bool)
    requires DistinctNames(s)
    ensures DistinctNames(Filter(s, p))
  {
    if s != [] {
      FilterDistinct(s[1..], p);
      forall c | c in Filter(s[1..], p) ensures s[0].name != c.name {
        var i :| 0 <= i < |s[1..]| && s[1..][i] == c;
        assert c == s[i + 1];
      }
    }
  }

  lemma {:induction false} FilterNone(s: seq<Chain>, p: Chain -> bool)
    requires forall c :: c in s ==> !p(c)
    ensures Filter(s, p) == []
  {
    if s != [] { FilterNone(s[1..], p); }
  }

  lemma {:induction false} FilterSplits(a: seq<Chain>, b: seq<Chain>, p: Chain -> bool)
    ensures Filter(a + b, p) == Filter(a, p) + Filter(b, p)
  {
    if a == [] {
      assert a + b == b;
    } else {
      assert (a + b)[1..] == a[1..] + b;
      FilterSplits(a[1..], b, p);
    }
  }

  /** Names being distinct, removing duplicates does nothing: the candidates are the fitting connected chains. */
  lemma CandidatesAreFitting(client: Client, l1: bool, gs: seq<Group>)
    requires DistinctNames(client.connected)
    ensures Candidates(Resolvable(client, l1), gs) == Filter(client.connected, Fitting(gs))
  {
    var p := Fitting(gs);
    var first := if l1 then [DexalotL1(client)] else [];
    FilterSplits(first, client.connected, p);
    FilterNone(first, p);
    assert [] + Filter(client.connected, p) == Filter(client.connected, p);
    FilterDistinct(client.connected, p);
    DedupeDistinct(Filter(client.connected, p));
  }

  ghost predicate Only(s: seq<Chain>, p: Chain -> bool, i: nat) {
    i < |s| && p(s[i]) && forall j :: 0 <= j < |s| && p(s[j]) ==> j == i
  }

  /** A filter keeps one element exactly if one position satisfies its predicate. */
  lemma {:induction false} FilterOne(s: seq<Chain>, p: Chain -> bool)
    ensures |Filter(s, p)| == 1 <==> exists i: nat :: Only(s, p, i)
    ensures forall i: nat :: Only(s, p, i) ==> Filter(s, p) == [s[i]]
  {
    if s != [] {
      var t := s[1..];
      FilterOne(t, p);
      forall i: nat | Only(s, p, i) ensures Filter(s, p) == [s[i]] {
        if i == 0 {
          forall c | c in t ensures !p(c) {
            var j :| 0 <= j < |t| && t[j] == c;
            assert s[j + 1] == c;
          }
          FilterNone(t, p);
        } else {
          assert Only(t, p, i - 1);
        }
      }
      if |Filter(s, p)| == 1 {
        if p(s[0]) {
          assert Filter(t, p) == [];
          assert forall c :: c in t ==> !p(c);
          assert Only(s, p, 0);
        } else {
          var i: nat :| Only(t, p, i);
          assert Only(s, p, i + 1);
        }
      }
    }
  }

  lemma InResolvable(client: Client, l1: bool)
    ensures forall c :: c in Resolvable(client, l1) <==> c in client.connected || (l1 && c == DexalotL1(client))
  {}

  lemma SpecialIsL1(client: Client)
    ensures Find(Resolvable(client, true), Named(DEXALOT_L1)) == Some(DexalotL1(client))
  {
    assert Resolvable(client, true)[0] == DexalotL1(client);
  }

  /** Chain `c` is one the reference with normal form `n` may mean. */
  ghost predicate MayMean(reg: Registry, client: Client, l1: bool, n: string, c: Chain) {
    || (l1 && n in reg.dexalot && c == DexalotL1(client))
    || HasId(c, n)
    || Normalize(c.name) == n
    || FitsSome(c, Groups(reg.connected, n))
  }

  lemma AliasSound(client: Client, l1: bool, gs: seq<Group>)
    requires DistinctNames(client.connected) && ByAlias(Resolvable(client, l1), client.active, gs).Success?
    ensures var c := ByAlias(Resolvable(client, l1), client.active, gs).value;
      c in client.connected && FitsSome(c, gs)
  {
    CandidatesAreFitting(client, l1, gs);
  }

  lemma {:induction false} NameSound(reg: Registry, client: Client, l1: bool, n: string)
    requires DistinctNames(client.connected) && ByName(reg, client, Resolvable(client, l1), n).Success?
    ensures var c := ByName(reg, client, Resolvable(client, l1), n).value;
      && (c in client.connected || (l1 && c == DexalotL1(client)))
      && (Normalize(c.name) == n || FitsSome(c, Groups(reg.connected, n)))
  {
    InResolvable(client, l1);
    if |Filter(Resolvable(client, l1), NormallyNamed(n))| != 1 { AliasSound(client, l1, Groups(reg.connected, n)); }
  }

  lemma {:induction false} IdSound(reg: Registry, client: Client, l1: bool, n: string)
    requires DistinctNames(client.connected) && ById(reg, client, Resolvable(client, l1), n).Success?
    ensures var c := ById(reg, client, Resolvable(client, l1), n).value;
      && (c in client.connected || (l1 && c == DexalotL1(client)))
      && (HasId(c, n) || Normalize(c.name) == n || FitsSome(c, Groups(reg.connected, n)))
  {
    InResolvable(client, l1);
    if !AllDigits(n) || Find(Resolvable(client, l1), WithId(n)).None? { NameSound(reg, client, l1, n); }
  }

  /**
   A reference resolves only to a connected chain, or to Dexalot L1 when that is included, and only
   to one that it means by its alias, its id, its name or a group of aliases.
   */
  lemma ResolvesToConnected(reg: Registry, client: Client, l1: bool, reference: string)
    requires DistinctNames(client.connected)
    requires Resolve(reg, client, l1, reference).Success?
    ensures var c := Resolve(reg, client, l1, reference).value;
      && (c in client.connected || (l1 && c == DexalotL1(client)))
      && MayMean(reg, client, l1, Normalize(reference), c)
  {
    var n := Normalize(reference);
    if l1 && n in reg.dexalot { SpecialIsL1(client); } else { IdSound(reg, client, l1, n); }
  }

  ghost predicate Decides(client: Client, gs: seq<Group>) {
    || (exists i: nat :: Only(client.connected, Fitting(gs), i))
    || (client.active.Some? && exists c :: c in client.connected && FitsSome(c, gs) && c.id == client.active)
  }

  lemma AliasExactly(client: Client, l1: bool, gs: seq<Group>)
    requires DistinctNames(client.connected)
    ensures ByAlias(Resolvable(client, l1), client.active, gs).Success? <==> Decides(client, gs)
  {
    CandidatesAreFitting(client, l1, gs);
    FilterOne(client.connected, Fitting(gs));
    if gs == [] { FilterNone(client.connected, Fitting(gs)); }
  }

  lemma {:induction false} NameExactly(reg: Registry, client: Client, l1: bool, n: string)
    requires DistinctNames(client.connected)
    ensures ByName(reg, client, Resolvable(client, l1), n).Success? <==>
        (exists i: nat :: Only(Resolvable(client, l1), NormallyNamed(n), i)) || Decides(client, Groups(reg.connected, n))
  {
    AliasExactly(client, l1, Groups(reg.connected, n));
    FilterOne(Resolvable(client, l1), NormallyNamed(n));
  }

  lemma {:induction false} IdExactly(s: seq<Chain>, n: string)
    ensures (AllDigits(n) && Find(s, WithId(n)).Some?) <==> exists c :: c in s && HasId(c, n)
  {
    forall c | c in s && HasId(c, n) ensures AllDigits(n) { DecimalRoundTrip(c.id.value); }
  }

  /** Exactly when a reference resolves. */
  lemma ResolvesExactly(reg: Registry, client: Client, l1: bool, reference: string)
    requires DistinctNames(client.connected)
    ensures var n, chains := Normalize(reference), Resolvable(client, l1);
      Resolve(reg, client, l1, reference).Success? <==>
        n != "" && (
          || (l1 && n in reg.dexalot)
          || (exists c :: c in chains && HasId(c, n))
          || (exists i: nat :: Only(chains, NormallyNamed(n), i))
          || Decides(client, Groups(reg.connected, n)))
  {
    var n := Normalize(reference);
    IdExactly(Resolvable(client, l1), n);
    NameExactly(reg, client, l1, n);
  }

  /** Position `i` is the first with the property. */
  ghost predicate First(s: seq<Chain>, p: Chain -> bool, i: nat) {
    i < |s| && p(s[i]) && forall k :: 0 <= k < i ==> !p(s[k])
  }

  function FittingActive(gs: seq<Group>, active: Option<nat>): Chain -> bool {
    (c: Chain) => FitsSome(c, gs) && c.id == active
  }

  lemma {:induction false} FilterThenFind(s: seq<Chain>, p: Chain -> bool, q: Chain -> bool, i: nat)
    requires i < |s| && p(s[i]) && q(s[i]) && forall k :: 0 <= k < i ==> !(p(s[k]) && q(s[k]))
    ensures Find(Filter(s, p), q) == Some(s[i])
  {
    var t := s[1..];
    if i > 0 {
      assert forall k :: 0 <= k < i - 1 ==> t[k] == s[k + 1];
      FilterThenFind(t, p, q, i - 1);
      if p(s[0]) { FindLater(s[0], Filter(t, p), q); } else { assert [] + Filter(t, p) == Filter(t, p); }
    }
  }

  lemma {:induction false} FindLater(c: Chain, rest: seq<Chain>, q: Chain -> bool)
    requires !q(c)
    ensures Find([c] + rest, q) == Find(rest, q)
  {
    assert ([c] + rest)[1..] == rest;
  }

  /** A group asks for an environment, and a chain of a family asked for is there, if in another environment. */
  ghost predicate Elsewhere(client: Client, l1: bool, gs: seq<Group>) {
    && (exists c, g :: c in Resolvable(client, l1) && g in gs && c.family == Some(g.family))
    && exists g :: g in gs && g.env.Some?
  }

  lemma AliasPicks(client: Client, l1: bool, gs: seq<Group>, i: nat)
    requires DistinctNames(client.connected)
    ensures Only(client.connected, Fitting(gs), i) ==>
              ByAlias(Resolvable(client, l1), client.active, gs) == Success(client.connected[i])
    ensures client.active.Some? && (forall k: nat :: !Only(client.connected, Fitting(gs), k))
            && First(client.connected, FittingActive(gs, client.active), i) ==>
              ByAlias(Resolvable(client, l1), client.active, gs) == Success(client.connected[i])
    ensures gs == [] ==> ByAlias(Resolvable(client, l1), client.active, gs) == Failure(NotRecognized)
    ensures gs != [] && !Decides(client, gs) ==>
              ByAlias(Resolvable(client, l1), client.active, gs)
              == Failure(if Elsewhere(client, l1, gs) then WrongEnvironment else Ambiguous)
  {
    AliasExactly(client, l1, gs);
    var s := client.connected;
    CandidatesAreFitting(client, l1, gs);
    FilterOne(s, Fitting(gs));
    if client.active.Some? && First(s, FittingActive(gs, client.active), i) {
      FilterThenFind(s, Fitting(gs), Active(client.active), i);
    }
  }

  lemma {:induction false} NamePicks(reg: Registry, client: Client, l1: bool, n: string, i: nat)
    ensures Only(Resolvable(client, l1), NormallyNamed(n), i) ==>
              ByName(reg, client, Resolvable(client, l1), n) == Success(Resolvable(client, l1)[i])
    ensures (forall k: nat :: !Only(Resolvable(client, l1), NormallyNamed(n), k)) ==>
              ByName(reg, client, Resolvable(client, l1), n)
              == ByAlias(Resolvable(client, l1), client.active, Groups(reg.connected, n))
  {
    FilterOne(Resolvable(client, l1), NormallyNamed(n));
  }

  lemma {:induction false} IdPicks(reg: Registry, client: Client, l1: bool, n: string, i: nat)
    ensures First(Resolvable(client, l1), WithId(n), i) ==>
              ById(reg, client, Resolvable(client, l1), n) == Success(Resolvable(client, l1)[i])
    ensures (forall c :: c in Resolvable(client, l1) ==> !HasId(c, n)) ==>
              ById(reg, client, Resolvable(client, l1), n) == ByName(reg, client, Resolvable(client, l1), n)
  {
    var s := Resolvable(client, l1);
    IdExactly(s, n);
    if First(s, WithId(n), i) {
      assert s[i] in s && HasId(s[i], n);
      FindAt(s, WithId(n), i);
    }
  }

  /** The reference is not one of an included Dexalot L1, and no chain has it as its id. */
  ghost predicate PastId(reg: Registry, client: Client, l1: bool, n: string) {
    && n != "" && Resolvable(client, l1) != [] && !(l1 && n in reg.dexalot)
    && forall c :: c in Resolvable(client, l1) ==> !HasId(c, n)
  }

  /** Nor is it the normal form of just one chain's name. */
  ghost predicate PastName(reg: Registry, client: Client, l1: bool, n: string) {
    PastId(reg, client, l1, n) && forall k: nat :: !Only(Resolvable(client, l1), NormallyNamed(n), k)
  }

  /**
   Which chain a reference resolves to: an alias of an included Dexalot L1 goes first, then the first
   chain with the id, then the only chain of that name, then the only connected chain that fits, and of
   several that fit the first with the active id.  What is not in any table is not recognised; what
   nothing decides is in the wrong environment or ambiguous.
   */
  lemma ResolvesInOrder(reg: Registry, client: Client, l1: bool, reference: string, i: nat)
    requires DistinctNames(client.connected)
    ensures var n, chains, r := Normalize(reference), Resolvable(client, l1), Resolve(reg, client, l1, reference);
      var gs := Groups(reg.connected, n);
      && (n == "" ==> r == Failure(EmptyReference))
      && (n != "" && chains == [] ==> r == Failure(NoChains))
      && (n != "" && l1 && n in reg.dexalot ==> r == Success(Chain("Dexalot L1", client.subnet, None, None)))
      && (n != "" && !(l1 && n in reg.dexalot) && First(chains, WithId(n), i) ==> r == Success(chains[i]))
      && (PastId(reg, client, l1, n) && Only(chains, NormallyNamed(n), i) ==> r == Success(chains[i]))
      && (PastName(reg, client, l1, n) && Only(client.connected, Fitting(gs), i) ==> r == Success(client.connected[i]))
      && (PastName(reg, client, l1, n) && (forall k: nat :: !Only(client.connected, Fitting(gs), k))
          && client.active.Some? && First(client.connected, FittingActive(gs, client.active), i)
          ==> r == Success(client.connected[i]))
      && (PastName(reg, client, l1, n) && gs == [] ==> r == Failure(NotRecognized))
      && (PastName(reg, client, l1, n) && gs != [] && !Decides(client, gs)
          ==> r == Failure(if Elsewhere(client, l1, gs) then WrongEnvironment else Ambiguous))
  {
    var n := Normalize(reference);
    if l1 { SpecialIsL1(client); }
    IdPicks(reg, client, l1, n, i);
    NamePicks(reg, client, l1, n, i);
    AliasPicks(client, l1, Groups(reg.connected, n), i);
  }

  lemma SameWordsSameChain(reg: Registry, client: Client, l1: bool, a: string, b: string)
    requires Words(a) == Words(b)
    ensures Resolve(reg, client, l1, a) == Resolve(reg, client, l1, b)
  {
    SameNormalForm(a, b);
  }

  /**
   Only the words of a reference count: references that differ in case, punctuation and blanks are
   refused alike or resolve to the same chain, each echoed as it was given.
   */
  lemma OnlyWordsCount(reg: Registry, client: Client, l1: bool, a: string, b: string)
    requires Words(a) == Words(b)
    ensures var x, y := ResolveReference(reg, client, l1, a), ResolveReference(reg, client, l1, b);
      && (x.Success? <==> y.Success?) && (x.Failure? ==> x == y)
      && (x.Success? ==> x.value.chain == y.value.chain && x.value.matchedAlias == a && y.value.matchedAlias == b)
  {
    SameWordsSameChain(reg, client, l1, a, b);
  }

  // ----- Numbers -----

  /** `String(n)` of an integer. */
  function Shown(n: int): string { if n < 0 then "-" + Decimal(-n) else Decimal(n) }

  lemma {:induction false} DecimalIsTidy(n: nat)
    ensures Tidy(Decimal(n)) && Decimal(n) != ""
  {
    DecimalRoundTrip(n);
    assert forall i :: 0 <= i < |Decimal(n)| ==> IsDigit(Decimal(n)[i]);
  }

  lemma NormalIdResolves(reg: Registry, client: Client, l1: bool, c: Chain, reference: string)
    requires c in client.connected && HasId(c, Normalize(reference)) && !(l1 && Normalize(reference) in reg.dexalot)
    ensures var r := Resolve(reg, client, l1, reference);
      r.Success? && r.value.id == c.id
  {
    var n := Normalize(reference);
    DecimalRoundTrip(c.id.value);
    InResolvable(client, l1);
    var r := Find(Resolvable(client, l1), WithId(n));
    DecimalRoundTrip(r.value.id.value);
  }

  lemma SignIsLost(n: string)
    ensures Words("-" + n) == Words(n)
  {
    assert LowerCase("-" + n) == ['-'] + LowerCase(n) by {
      assert ("-" + n)[1..] == n;
    }
    RunCloses("", '-', LowerCase(n));
  }

  /**
   The id of a connected chain resolves to a chain with that id, unless it is an alias of an included
   Dexalot L1.  The sign is lost: the negated id resolves the same way.
   */
  lemma IdResolves(reg: Registry, client: Client, l1: bool, c: Chain)
    requires c in client.connected && c.id.Some? && !(l1 && Decimal(c.id.value) in reg.dexalot)
    ensures var r := Resolve(reg, client, l1, Shown(c.id.value));
      r.Success? && r.value.id == c.id
    ensures var k: int := c.id.value;
      Resolve(reg, client, l1, Shown(-k)) == Resolve(reg, client, l1, Shown(k))
  {
    var n := Decimal(c.id.value);
    DecimalIsTidy(c.id.value);
    TidyIsNormal(n);
    NormalIdResolves(reg, client, l1, c, n);
    SignIsLost(n);
    SameWordsSameChain(reg, client, l1, "-" + n, n);
  }

  // ----- The order of the configuration -----

  /** Taking the first element out of both. */
  lemma Removed(a: seq<Chain>, b: seq<Chain>, i: nat)
    requires multiset(a) == multiset(b) && a != [] && i < |b| && b[i] == a[0]
    ensures multiset(a[1..]) == multiset(b[..i] + b[i + 1..])
  {
    assert a == [a[0]] + a[1..];
    assert b == b[..i] + ([b[i]] + b[i + 1..]);
    assert multiset(a) == multiset{a[0]} + multiset(a[1..]);
    assert multiset(b) == multiset(b[..i]) + (multiset{b[i]} + multiset(b[i + 1..]));
    assert multiset(b[..i] + b[i + 1..]) == multiset(b[..i]) + multiset(b[i + 1..]);
    assert multiset(a) - multiset{a[0]} == multiset(a[1..]);
    assert multiset(b) - multiset{a[0]} == multiset(b[..i] + b[i + 1..]);
  }

  lemma FilterWithout(b: seq<Chain>, p: Chain -> bool, i: nat)
    requires i < |b|
    ensures |Filter(b, p)| == (if p(b[i]) then 1 else 0) + |Filter(b[..i] + b[i + 1..], p)|
  {
    assert b == b[..i] + b[i..];
    FilterSplits(b[..i], b[i..], p);
    FilterSplits(b[..i], b[i + 1..], p);
    assert b[i..][1..] == b[i + 1..];
  }

  lemma {:induction false} FilterCount(a: seq<Chain>, b: seq<Chain>, p: Chain -> bool)
    requires multiset(a) == multiset(b)
    ensures |Filter(a, p)| == |Filter(b, p)|
  {
    if a == [] {
      assert |multiset(b)| == 0;
    } else {
      assert a[0] in multiset(b);
      var i :| 0 <= i < |b| && b[i] == a[0];
      Removed(a, b, i);
      FilterCount(a[1..], b[..i] + b[i + 1..], p);
      FilterWithout(b, p, i);
    }
  }

  lemma SameElements(a: seq<Chain>, b: seq<Chain>)
    requires multiset(a) == multiset(b)
    ensures forall c :: c in a <==> c in b
  {
    forall c ensures c in a <==> c in b {
      assert c in a <==> c in multiset(a);
      assert c in b <==> c in multiset(b);
    }
  }

  ghost predicate AtMostOne(s: seq<Chain>, p: Chain -> bool) { forall c, d :: c in s && d in s && p(c) && p(d) ==> c == d }

  lemma {:induction false} SameFind(a: seq<Chain>, b: seq<Chain>, p: Chain -> bool)
    requires (forall c :: c in a <==> c in b) && AtMostOne(a, p)
    ensures Find(a, p) == Find(b, p)
  {}

  lemma {:induction false} SameOnly(a: seq<Chain>, b: seq<Chain>, p: Chain -> bool)
    requires multiset(a) == multiset(b)
    ensures |Filter(a, p)| == 1 ==> Filter(b, p) == Filter(a, p)
  {
    FilterCount(a, b, p);
    SameElements(a, b);
    if |Filter(a, p)| == 1 {
      assert Filter(a, p)[0] in Filter(b, p);
      assert Filter(b, p) == [Filter(b, p)[0]];
    }
  }

  lemma IdsIdentify(s: seq<Chain>, id: Option<nat>)
    requires DistinctIds(s) && id.Some?
    ensures forall c, d :: c in s && d in s && c.id == id && d.id == id ==> c == d
  {
    forall c, d | c in s && d in s && c.id == id && d.id == id ensures c == d {
      var i :| 0 <= i < |s| && s[i] == c;
      var j :| 0 <= j < |s| && s[j] == d;
      assert i == j;
    }
  }

  ghost predicate Reordered(a: Client, b: Client) {
    && multiset(a.connected) == multiset(b.connected) && a.active == b.active && a.subnet == b.subnet
    && DistinctNames(a.connected) && DistinctNames(b.connected)
  }

  lemma SameCandidates(a: Client, b: Client, l1: bool, gs: seq<Group>)
    requires Reordered(a, b)
    ensures var x, y := Candidates(Resolvable(a, l1), gs), Candidates(Resolvable(b, l1), gs);
      && |x| == |y| && (|x| == 1 ==> x == y)
      && (forall c :: c in x <==> c in y) && (forall c :: c in x ==> c in a.connected)
  {
    CandidatesAreFitting(a, l1, gs);
    CandidatesAreFitting(b, l1, gs);
    SameOnly(a.connected, b.connected, Fitting(gs));
    FilterCount(a.connected, b.connected, Fitting(gs));
    SameElements(a.connected, b.connected);
  }

  lemma {:induction false} SameActive(x: seq<Chain>, y: seq<Chain>, s: seq<Chain>, active: Option<nat>)
    requires DistinctIds(s) && active.Some? && (forall c :: c in x <==> c in y) && (forall c :: c in x ==> c in s)
    ensures Find(x, Active(active)) == Find(y, Active(active))
  {
    IdsIdentify(s, active);
    SameFind(x, y, Active(active));
  }

  lemma SameByAlias(a: Client, b: Client, l1: bool, gs: seq<Group>)
    requires Reordered(a, b) && DistinctIds(a.connected)
    ensures ByAlias(Resolvable(a, l1), a.active, gs) == ByAlias(Resolvable(b, l1), b.active, gs)
  {
    SameCandidates(a, b, l1, gs);
    if a.active.Some? {
      SameActive(Candidates(Resolvable(a, l1), gs), Candidates(Resolvable(b, l1), gs), a.connected, a.active);
    }
    SameElements(a.connected, b.connected);
    assert forall c :: c in Resolvable(a, l1) <==> c in Resolvable(b, l1);
  }

  lemma SameById(a: Client, b: Client, l1: bool, n: string)
    requires Reordered(a, b) && DistinctIds(a.connected)
    ensures Find(Resolvable(a, l1), WithId(n)) == Find(Resolvable(b, l1), WithId(n))
  {
    var p := WithId(n);
    SameElements(a.connected, b.connected);
    forall c, d | c in a.connected && d in a.connected && p(c) && p(d) ensures c == d {
      DecimalRoundTrip(c.id.value);
      DecimalRoundTrip(d.id.value);
      IdsIdentify(a.connected, c.id);
    }
    SameFind(a.connected, b.connected, p);
    if l1 {
      assert Resolvable(a, l1)[1..] == a.connected && Resolvable(b, l1)[1..] == b.connected;
    } else {
      assert Resolvable(a, l1) == a.connected && Resolvable(b, l1) == b.connected;
    }
  }

  lemma SameByName(a: Client, b: Client, l1: bool, n: string)
    requires Reordered(a, b)
    ensures var x, y := Filter(Resolvable(a, l1), NormallyNamed(n)), Filter(Resolvable(b, l1), NormallyNamed(n));
      (|x| == 1 || |y| == 1) ==> x == y
  {
    var first := if l1 then [DexalotL1(a)] else [];
    assert Resolvable(a, l1) == first + a.connected && Resolvable(b, l1) == first + b.connected;
    assert multiset(first + a.connected) == multiset(first + b.connected);
    SameOnly(Resolvable(a, l1), Resolvable(b, l1), NormallyNamed(n));
    SameOnly(Resolvable(b, l1), Resolvable(a, l1), NormallyNamed(n));
  }

  lemma SameLookup(reg: Registry, a: Client, b: Client, l1: bool, n: string)
    requires Reordered(a, b) && DistinctIds(a.connected)
    ensures ById(reg, a, Resolvable(a, l1), n) == ById(reg, b, Resolvable(b, l1), n)
  {
    SameById(a, b, l1, n);
    SameByName(a, b, l1, n);
    SameByAlias(a, b, l1, Groups(reg.connected, n));
  }

  /** When chain ids are distinct, the order in which the chains are configured does not matter. */
  lemma OrderIrrelevant(reg: Registry, a: Client, b: Client, l1: bool, reference: string)
    requires Reordered(a, b) && DistinctIds(a.connected)
    ensures Resolve(reg, a, l1, reference) == Resolve(reg, b, l1, reference)
  {
    var n := Normalize(reference);
    SameLookup(reg, a, b, l1, n);
    assert |multiset(a.connected)| == |multiset(b.connected)|;
    if l1 {
      SpecialIsL1(a);
      SpecialIsL1(b);
    }
  }

  lemma {:induction false} FindAt(s: seq<Chain>, p: Chain -> bool, i: nat)
    requires i < |s| && p(s[i]) && forall k :: 0 <= k < i ==> !p(s[k])
    ensures Find(s, p) == Some(s[i])
  {
    if i > 0 { FindAt(s[1..], p, i - 1); }
  }

  lemma FirstWithIdWins(reg: Registry, client: Client, i: nat)
    requires i < |client.connected| && client.connected[i].id.Some?
    requires forall k :: 0 <= k < i ==> client.connected[k].id != client.connected[i].id
    ensures Resolve(reg, client, false, Shown(client.connected[i].id.value)) == Success(client.connected[i])
  {
    var s, k := client.connected, client.connected[i].id.value;
    var n := Decimal(k);
    DecimalIsTidy(k);
    TidyIsNormal(n);
    DecimalRoundTrip(k);
    forall m | 0 <= m < i ensures !HasId(s[m], n) {
      if s[m].id.Some? { DecimalRoundTrip(s[m].id.value); }
    }
    FindAt(s, WithId(n), i);
    assert Resolvable(client, false) == s;
  }

  /** When two configured chains share an id, it does: the id resolves to whichever is first. */
  lemma SharedIdGoesToFirst(reg: Registry, client: Client, i: nat, j: nat)
    requires i < j < |client.connected| && client.connected[i].id.Some? && client.connected[i].id == client.connected[j].id
    requires forall k :: 0 <= k < i ==> client.connected[k].id != client.connected[i].id
    ensures var s, n := client.connected, Shown(client.connected[i].id.value);
      && Resolve(reg, client, false, n) == Success(s[i])
      && Resolve(reg, client.(connected := s[i := s[j]][j := s[i]]), false, n) == Success(s[j])
  {
    var s := client.connected;
    FirstWithIdWins(reg, client, i);
    FirstWithIdWins(reg, client.(connected := s[i := s[j]][j := s[i]]), i);
  }

  // ----- Inferring family and environment -----

  /** A configured chain; an absent id is `None`. */
  datatype Configured = Configured(name: string, id: Option<nat>)

  /** A family is inferred from these ids and from these words anywhere in the normal form of the name. */
  datatype FamilyRow = FamilyRow(family: string, ids: seq<nat>, words: seq<string>)

  /** In the order in which they are tried. */
  const FAMILIES := [
    FamilyRow("avalanche", [43113, 43114], ["avalanche", "avax", "fuji"]),
    FamilyRow("ethereum", [1, 11155111], ["ethereum", "eth", "sepolia"]),
    FamilyRow("arbitrum", [42161, 421614], ["arbitrum", "arb"]),
    FamilyRow("bsc", [56, 97], ["bsc", "binance", "bnb", "chapel"]),
    FamilyRow("base", [8453, 84532], ["base", "coinbase"]),
    FamilyRow("monad", [10143], ["monad"])]

  const TESTNET_CHAIN_IDS: seq<nat> := [43113, 97, 84532, 10143, 11155111, 421614]

  const MAINNET_CHAIN_IDS: seq<nat> := [43114, 1, 56, 8453, 42161]

  predicate Mentions(n: string, words: seq<string>) { exists i :: 0 <= i < |words| && Contains(n, words[i]) }

  predicate FamilyFits(r: FamilyRow, n: string, id: Option<nat>) {
    (id.Some? && id.value in r.ids) || Mentions(n, r.words)
  }

  function FirstFamily(rows: seq<FamilyRow>, n: string, id: Option<nat>): Option<string> {
    if rows == [] then None else if FamilyFits(rows[0], n, id) then Some(rows[0].family) else FirstFamily(rows[1..], n, id)
  }

  function InferFamily(name: string, id: Option<nat>): Option<string> { FirstFamily(FAMILIES, Normalize(name), id) }

  function InferEnvironment(name: string, id: Option<nat>): Option<string> {
    if id.Some? && id.value in TESTNET_CHAIN_IDS then Some("testnet")
    else if id.Some? && id.value in MAINNET_CHAIN_IDS then Some("mainnet")
    else if Mentions(Normalize(name), ["testnet", "fuji", "chapel", "sepolia"]) then Some("testnet")
    else if Contains(Normalize(name), "mainnet") then Some("mainnet")
    else None
  }

  function Infer(c: Configured): Chain {
    Chain(c.name, c.id, InferFamily(c.name, c.id), InferEnvironment(c.name, c.id))
  }

  function Mapped(cs: seq<Configured>, f: Configured -> Chain): seq<Chain> {
    if cs == [] then [] else Mapped(cs[..|cs| - 1], f) + [f(cs[|cs| - 1])]
  }

  function Inferred(cs: seq<Configured>): seq<Chain> { Mapped(cs, Infer) }

  lemma {:induction false} FirstFamilyExactly(rows: seq<FamilyRow>, n: string, id: Option<nat>, i: nat)
    requires i < |rows| && id.Some? && id.value in rows[i].ids
    requires forall j :: 0 <= j < i ==> id.value !in rows[j].ids && rows[j].family != rows[i].family
    ensures FirstFamily(rows, n, id) == Some(rows[i].family) <==> forall j :: 0 <= j < i ==> !Mentions(n, rows[j].words)
  {
    if i > 0 {
      assert id.value !in rows[0].ids && rows[0].family != rows[i].family;
      if !Mentions(n, rows[0].words) {
        forall j | 0 <= j < i - 1 ensures id.value !in rows[1..][j].ids && rows[1..][j].family != rows[i].family {
          assert rows[1..][j] == rows[j + 1];
        }
        FirstFamilyExactly(rows[1..], n, id, i - 1);
        assert forall j :: 0 <= j < i - 1 ==> rows[1..][j] == rows[j + 1];
        assert forall j :: 0 < j < i ==> rows[j] == rows[1..][j - 1];
      }
    }
  }

  /**
   A chain with a known id is put into its own family exactly if its name has no word of a family that
   is tried before: the name goes before the id.
   */
  lemma FamilyOfKnownIdExactly(name: string, k: nat, i: nat)
    requires i < |FAMILIES| && k in FAMILIES[i].ids
    ensures InferFamily(name, Some(k)) == Some(FAMILIES[i].family) <==>
              forall j :: 0 <= j < i ==> !Mentions(Normalize(name), FAMILIES[j].words)
  {
    KnownIdsApart(k, i);
    FirstFamilyExactly(FAMILIES, Normalize(name), Some(k), i);
  }

  lemma {:induction false} FirstFamilyMeaning(rows: seq<FamilyRow>, n: string, id: Option<nat>, i: nat)
    ensures FirstFamily(rows, n, id).None? <==> forall r :: r in rows ==> !FamilyFits(r, n, id)
    ensures i < |rows| && FamilyFits(rows[i], n, id) && (forall j :: 0 <= j < i ==> !FamilyFits(rows[j], n, id))
            ==> FirstFamily(rows, n, id) == Some(rows[i].family)
  {
    if rows != [] {
      FirstFamilyMeaning(rows[1..], n, id, if i > 0 then i - 1 else 0);
      if 0 < i < |rows| { assert rows[1..][i - 1] == rows[i] && forall j :: 0 <= j < i - 1 ==> rows[1..][j] == rows[j + 1]; }
      assert forall r :: r in rows <==> r == rows[0] || r in rows[1..];
    }
  }

  /** In general: the first family that has the id or a word of the name, and none if none has. */
  lemma FamilyIsFirst(name: string, id: Option<nat>, i: nat)
    ensures InferFamily(name, id).None? <==>
              forall r :: r in FAMILIES ==> !((id.Some? && id.value in r.ids) || Mentions(Normalize(name), r.words))
    ensures i < |FAMILIES| && ((id.Some? && id.value in FAMILIES[i].ids) || Mentions(Normalize(name), FAMILIES[i].words))
            && (forall j :: 0 <= j < i ==>
                  !((id.Some? && id.value in FAMILIES[j].ids) || Mentions(Normalize(name), FAMILIES[j].words)))
            ==> InferFamily(name, id) == Some(FAMILIES[i].family)
  {
    FirstFamilyMeaning(FAMILIES, Normalize(name), id, i);
  }

  /** A known id settles the environment, whatever the name; an unknown one is as good as none. */
  lemma EnvironmentOfId(name: string, k: nat)
    ensures k in TESTNET_CHAIN_IDS ==> InferEnvironment(name, Some(k)) == Some("testnet")
    ensures k in MAINNET_CHAIN_IDS ==> InferEnvironment(name, Some(k)) == Some("mainnet")
    ensures k !in TESTNET_CHAIN_IDS && k !in MAINNET_CHAIN_IDS ==>
              InferEnvironment(name, Some(k)) == InferEnvironment(name, None)
    ensures InferEnvironment(name, None) ==
            var n := Normalize(name);
            if Contains(n, "testnet") || Contains(n, "fuji") || Contains(n, "chapel") || Contains(n, "sepolia")
            then Some("testnet") else if Contains(n, "mainnet") then Some("mainnet") else None
  {
    var n, words := Normalize(name), ["testnet", "fuji", "chapel", "sepolia"];
    assert words[0] == "testnet" && words[1] == "fuji" && words[2] == "chapel" && words[3] == "sepolia";
    assert Mentions(n, words)
           <==> Contains(n, words[0]) || Contains(n, words[1]) || Contains(n, words[2]) || Contains(n, words[3]);
  }

  lemma KnownIdsApart(k: nat, i: nat)
    requires i < |FAMILIES| && k in FAMILIES[i].ids
    ensures forall j :: 0 <= j < i ==> k !in FAMILIES[j].ids && FAMILIES[j].family != FAMILIES[i].family
  {}

  lemma SepoliaMentioned(n: string)
    requires Contains(n, "sepolia")
    ensures Mentions(n, FAMILIES[1].words)
  {
    assert FAMILIES[1].words[2] == "sepolia";
  }

  /** So a test network of any other family that carries Sepolia in its name is not put into that family. */
  lemma SepoliaLeavesFamily(name: string, k: nat, i: nat)
    requires 1 < i < |FAMILIES| && k in FAMILIES[i].ids && Contains(Normalize(name), "sepolia")
    ensures InferFamily(name, Some(k)) != Some(FAMILIES[i].family)
  {
    SepoliaMentioned(Normalize(name));
    FamilyOfKnownIdExactly(name, k, i);
  }

  lemma {:induction false} MappedAt(cs: seq<Configured>, f: Configured -> Chain)
    ensures |Mapped(cs, f)| == |cs| && forall i :: 0 <= i < |cs| ==> Mapped(cs, f)[i] == f(cs[i])
  {
    if cs != [] { MappedAt(cs[..|cs| - 1], f); }
  }

  lemma InferParts(c: Configured)
    ensures Infer(c).name == c.name && Infer(c).id == c.id
    ensures Infer(c).family == InferFamily(c.name, c.id) && Infer(c).env == InferEnvironment(c.name, c.id)
  {}

  lemma ResolvableParts(client: Client, l1: bool, i: nat)
    requires i < |client.connected|
    ensures var chains, first := Resolvable(client, l1), if l1 then 1 else 0;
      && |chains| == first + |client.connected| && chains[first + i] == client.connected[i]
      && (l1 ==> chains[0] == Chain("Dexalot L1", client.subnet, None, None))
  {}

  /** What can be resolved to: the configured chains by name and id, in order, after Dexalot L1 with the subnet's id. */
  lemma ResolvableChains(
    configs: seq<Configured>, active: Option<nat>, subnet: Option<nat>, l1: bool, i: nat)
    requires i < |configs|
    ensures var chains, first := Resolvable(Client(Inferred(configs), active, subnet), l1), if l1 then 1 else 0;
      && |chains| == first + |configs| && (l1 ==> chains[0] == Chain("Dexalot L1", subnet, None, None))
      && chains[first + i].name == configs[i].name && chains[first + i].id == configs[i].id
  {
    MappedAt(configs, Infer);
    ResolvableParts(Client(Inferred(configs), active, subnet), l1, i);
    InferParts(configs[i]);
  }

  // ----- The loops -----

  /** What `push` adds to the chains so far. */
  lemma MappedMore(first: seq<Chain>, cs: seq<Configured>, f: Configured -> Chain, i: nat)
    requires i < |cs|
    ensures first + Mapped(cs[..i], f) + [f(cs[i])] == first + Mapped(cs[..i + 1], f)
  {
    assert cs[..i + 1][..i] == cs[..i];
    Associates(first, Mapped(cs[..i], f), [f(cs[i])]);
  }

  lemma Associates(a: seq<Chain>, b: seq<Chain>, c: seq<Chain>)
    ensures a + b + c == a + (b + c)
  {}

  /** Dexalot L1, if included, and then each configured chain as `infer` has it. */
  method ListChains(configs: seq<Configured>, subnet: Option<nat>, includeL1: bool, infer: Configured -> Chain)
    returns (chains: seq<Chain>)
    ensures chains == (if includeL1 then [Chain(DEXALOT_L1, subnet, None, None)] else []) + Mapped(configs, infer)
  {
    chains := if includeL1 then [Chain(DEXALOT_L1, subnet, None, None)] else [];
    ghost var first := chains;
    var i := 0;
    while i < |configs|
      invariant 0 <= i <= |configs|
      invariant chains == first + Mapped(configs[..i], infer)
    {
      MappedMore(first, configs, infer, i);
      chains := chains + [infer(configs[i])];
      i := i + 1;
    }
    assert configs[..i] == configs;
  }

  method GetResolvableChains(configs: seq<Configured>, active: Option<nat>, subnet: Option<nat>, includeL1: bool)
    returns (chains: seq<Chain>)
    ensures chains == Resolvable(Client(Inferred(configs), active, subnet), includeL1)
  {
    chains := ListChains(configs, subnet, includeL1, Infer);
  }

  method MatchAliasGroups(entries: seq<Entry>, n: string) returns (matched: seq<Group>)
    ensures matched == Groups(entries, n)
  {
    matched := [];
    for i := 0 to |entries|
      invariant matched == Groups(entries[..i], n)
    {
      var e := entries[i];
      assert entries[..i + 1][..i] == entries[..i];
      if n in e.generic {
        matched := matched + [Group(e.family, None)];
      }
      if n in e.testnet {
        matched := matched + [Group(e.family, Some("testnet"))];
      }
      if n in e.mainnet {
        matched := matched + [Group(e.family, Some("mainnet"))];
      }
    }
    assert entries[..|entries|] == entries;
  }

  predicate InTable(e: Entry, n: string, g: Group) {
    && g.family == e.family
    && ((g.env == None && n in e.generic) || (g.env == Some("testnet") && n in e.testnet)
        || (g.env == Some("mainnet") && n in e.mainnet))
  }

  /** A group is matched exactly if some entry lists the reference in that group's table. */
  lemma {:induction false} GroupsMeaning(entries: seq<Entry>, n: string, g: Group)
    ensures g in Groups(entries, n) <==> exists e :: e in entries && InTable(e, n, g)
  {
    if entries != [] {
      var k := |entries| - 1;
      GroupsMeaning(entries[..k], n, g);
      assert entries == entries[..k] + [entries[k]];
      assert g in EntryGroups(entries[k], n) <==> InTable(entries[k], n, g);
    }
  }

  /** The entry's tables have the reference for this chain: for its family, and for its environment or any. */
  predicate Lists(e: Entry, n: string, c: Chain) {
    && c.family == Some(e.family)
    && (n in e.generic || (n in e.testnet && c.env == Some("testnet")) || (n in e.mainnet && c.env == Some("mainnet")))
  }

  /** A chain fits exactly if some entry of its family lists the reference, in general or for its environment. */
  lemma {:induction false} FitsByTables(entries: seq<Entry>, n: string, c: Chain)
    ensures FitsSome(c, Groups(entries, n)) <==> exists e :: e in entries && Lists(e, n, c)
  {
    if g :| g in Groups(entries, n) && Fits(c, g) {
      GroupsMeaning(entries, n, g);
      var e :| e in entries && InTable(e, n, g);
      assert Lists(e, n, c);
    }
    if e :| e in entries && Lists(e, n, c) {
      var g := Group(e.family, if n in e.generic then None else c.env);
      assert InTable(e, n, g) && Fits(c, g);
      GroupsMeaning(entries, n, g);
    }
  }

  method DedupeChains(chains: seq<Chain>) returns (r: seq<Chain>)
    ensures r == Dedupe(chains)
  {
    r := [];
    for i := 0 to |chains|
      invariant r == Dedupe(chains[..i])
    {
      assert chains[..i + 1][..i] == chains[..i];
      r := PutByName(r, chains[i]);
    }
    assert chains[..|chains|] == chains;
  }
}
