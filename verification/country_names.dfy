/** Country alias resolution (`normalize_country_names`): a raw country
    field is split on commas, each piece trimmed and lower-cased, blank
    pieces dropped, and every token looked up in the alias map; tokens with
    no alias, or with an empty alias, contribute nothing. */
module CountryNames {
  import opened Wrappers
  import opened Text

  /** A comma-separated piece, trimmed and lower-cased. */
  function Token(piece: string): string {
    Lower(Strip(piece))
  }

  /** The non-blank pieces as tokens, in order. */
  function TokensOf(pieces: seq<string>): (r: seq<string>)
    ensures |r| <= |pieces|
    ensures forall i :: 0 <= i < |r| ==> r[i] != ""
  {
    if pieces == [] then []
    else
      var last := pieces[|pieces| - 1];
      TokensOf(pieces[..|pieces| - 1]) + (if Strip(last) != "" then [Token(last)] else [])
  }

  /** The tokens of a raw country field: commas separate, nothing else does. */
  function Tokens(name: string): seq<string> {
    TokensOf(Split(name, ','))
  }

  /** `aliases.get(t)` is a non-empty canonical name. */
  predicate Resolves(aliases: map<string, string>, t: string) {
    t in aliases && aliases[t] != ""
  }

  /** The canonical names of the tokens that resolve, in token order. */
  function Resolve(tokens: seq<string>, aliases: map<string, string>): (r: seq<string>)
    ensures |r| <= |tokens|
    ensures forall i :: 0 <= i < |r| ==> r[i] != ""
  {
    if tokens == [] then []
    else
      var last := tokens[|tokens| - 1];
      Resolve(tokens[..|tokens| - 1], aliases) + (if Resolves(aliases, last) then [aliases[last]] else [])
  }

  /** What `normalize_country_names(name, aliases)` returns; `None` and the
      empty string give the empty list. */
  function CountriesOf(name: Option<string>, aliases: map<string, string>): (r: seq<string>)
    ensures !Truthy(name) ==> r == []
  {
    if !Truthy(name) then [] else Resolve(Tokens(name.value), aliases)
  }

  /** The lookup loop of `normalize_country_names`. */
  method NormalizeCountryNames(name: Option<string>, aliases: map<string, string>) returns (result: seq<string>)
    ensures result == CountriesOf(name, aliases)
  {
    if !Truthy(name) {
      return [];
    }
    var names := Tokens(name.value);
    result := [];
    var i := 0;
    while i < |names|
      invariant 0 <= i <= |names|
      invariant result == Resolve(names[..i], aliases)
    {
      var n := names[i];
      if n in aliases && aliases[n] != "" {
        result := result + [aliases[n]];
      }
      i := i + 1;
      assert names[..i][..i - 1] == names[..i - 1];
    }
    assert names[..|names|] == names;
  }

  /** A canonical name is in the result iff some token resolves to it. */
  lemma {:induction false} ResolveMembership(tokens: seq<string>, aliases: map<string, string>, c: string)
    ensures c in Resolve(tokens, aliases) <==> exists t :: t in tokens && Resolves(aliases, t) && aliases[t] == c
  {
    if tokens != [] {
      var init, last := tokens[..|tokens| - 1], tokens[|tokens| - 1];
      ResolveMembership(init, aliases, c);
      assert tokens == init + [last];
    }
  }

  /** Resolution works token by token: the result for a list of tokens is
      the results for its parts, in order. */
  lemma {:induction false} ResolveAppend(a: seq<string>, b: seq<string>, aliases: map<string, string>)
    ensures Resolve(a + b, aliases) == Resolve(a, aliases) + Resolve(b, aliases)
  {
    if b == [] {
      assert a + b == a;
    } else {
      assert (a + b)[..|a + b| - 1] == a + b[..|b| - 1];
      ResolveAppend(a, b[..|b| - 1], aliases);
    }
  }

  /** A field without commas is a single token. */
  lemma {:induction false} CountriesOfSingle(a: string, aliases: map<string, string>)
    requires ',' !in a
    ensures CountriesOf(Some(a), aliases) == if Strip(a) == "" then [] else Resolve([Token(a)], aliases)
  {
    SplitNoSeparator(a, ',');
    assert [a][..0] == [];
    assert TokensOf([a]) == if Strip(a) != "" then [Token(a)] else [];
    if a == "" {
      assert IsBlank(a);
    }
  }

  /** A field without commas is one token, so case and surrounding
      whitespace do not change what it resolves to. */
  lemma {:induction false} SingleTokenIgnoresCaseAndSpace(a: string, b: string, aliases: map<string, string>)
    requires ',' !in a && ',' !in b
    requires Lower(Strip(a)) == Lower(Strip(b))
    ensures CountriesOf(Some(a), aliases) == CountriesOf(Some(b), aliases)
  {
    CountriesOfSingle(a, aliases);
    CountriesOfSingle(b, aliases);
    assert |Strip(a)| == |Lower(Strip(a))| == |Strip(b)|;
  }

  lemma StripMali() ensures Strip("Mali") == "Mali" { StripUnchanged("Mali"); }
  lemma StripUpperMali() ensures Strip("MALI") == "MALI" { StripUnchanged("MALI"); }
  lemma StripLowerMali() ensures Strip("mali") == "mali" { StripUnchanged("mali"); }
  lemma LowerMali() ensures Lower("Mali") == "mali" {}
  lemma LowerUpperMali() ensures Lower("MALI") == "mali" {}
  lemma LowerLowerMali() ensures Lower("mali") == "mali" {}
  lemma MaliNigerToken() ensures Token("Mali;Niger") == "mali;niger" { StripUnchanged("Mali;Niger"); }

  /** "Mali" and "MALI" resolve identically. */
  lemma MaliAnyCase(aliases: map<string, string>)
    ensures CountriesOf(Some("Mali"), aliases) == CountriesOf(Some("MALI"), aliases)
  {
    StripMali();
    StripUpperMali();
    LowerMali();
    LowerUpperMali();
    SingleTokenIgnoresCaseAndSpace("Mali", "MALI", aliases);
  }

  lemma SplitMaliMali() ensures Split("Mali,mali", ',') == ["Mali", "mali"] {
    SplitJoin(["Mali", "mali"], ',');
    assert Join(["Mali", "mali"], ',') == "Mali,mali" by {
      assert ["Mali", "mali"][1..] == ["mali"];
    }
  }

  lemma TokensMaliMali() ensures TokensOf(["Mali", "mali"]) == ["mali", "mali"] {
    StripMali();
    StripLowerMali();
    LowerMali();
    LowerLowerMali();
    var pieces := ["Mali", "mali"];
    assert pieces[..1] == ["Mali"] && pieces[..1][..0] == [];
  }

  lemma ResolveMaliMali() ensures Resolve(["mali", "mali"], map["mali" := "Mali"]) == ["Mali", "Mali"] {
    var tokens := ["mali", "mali"];
    assert tokens[..1] == ["mali"] && tokens[..1][..0] == [];
  }

  /** The result is a list, not a set: a repeated country is kept twice. */
  lemma RepeatedCountryKeptTwice()
    ensures CountriesOf(Some("Mali,mali"), map["mali" := "Mali"]) == ["Mali", "Mali"]
  {
    SplitMaliMali();
    TokensMaliMali();
    ResolveMaliMali();
  }

  /** Semicolons do not separate countries. */
  lemma SemicolonIsNotASeparator()
    ensures CountriesOf(Some("Mali;Niger"), map["mali" := "Mali", "niger" := "Niger"]) == []
  {
    var aliases := map["mali" := "Mali", "niger" := "Niger"];
    CountriesOfSingle("Mali;Niger", aliases);
    MaliNigerToken();
    assert "mali;niger" !in aliases;
    assert [Token("Mali;Niger")][..0] == [];
  }
}
