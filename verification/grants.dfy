/** What a CORS configuration grants, in its own terms. */
module Grants {
  import opened Text
  import opened Headers
  import opened Cors
  import Decimal

  /** The value an origin is granted: itself if it is listed, or the wildcard if that is all the list
      holds and credentials are not allowed. */
  lemma OriginIsGrantedExactly(cfg: CorsConfig, origin: string)
    ensures var granted := FromPy(cfg).SelectAllowOrigin(origin);
            var wild := cfg.allowOrigins == ["*"] && !cfg.allowCredentials;
            && (granted.Some? <==> origin != "" && (wild || origin in cfg.allowOrigins))
            && (granted.Some? ==> granted.value == if wild then "*" else origin)
  {
    OnlyStar(cfg.allowOrigins);
  }

  /** With credentials the wildcard is never sent to an origin. */
  lemma CredentialsAreNeverWild(cfg: CorsConfig, origin: string)
    requires cfg.allowCredentials && origin != "*"
    ensures FromPy(cfg).SelectAllowOrigin(origin) != Some("*")
  {
    OriginIsGrantedExactly(cfg, origin);
  }

  /** The headers of a request are granted if the list is the wildcard alone or each of them is listed
      by name, ignoring case. */
  predicate HeadersGranted(cfg: CorsConfig, requested: seq<string>) {
    cfg.allowHeaders == ["*"]
    || forall p | p in requested :: exists h :: h in cfg.allowHeaders && h != "*" && Lower(h) == Lower(p)
  }

  /** What is answered for them. */
  function HeadersAnswer(cfg: CorsConfig, requested: seq<string>): string {
    if cfg.allowHeaders == ["*"] then "*"
    else Join(if requested == [] then cfg.allowHeaders else requested, ", ")
  }

  lemma HeadersAreGrantedExactly(cfg: CorsConfig, rawAch: string)
    ensures var requested := Pieces(rawAch, RUST_SEPARATOR);
            var granted := FromPy(cfg).PreflightAllowHeaders(rawAch);
            && (granted.Some? <==> HeadersGranted(cfg, requested))
            && (granted.Some? ==> granted.value == HeadersAnswer(cfg, requested))
  {
    OnlyStar(cfg.allowHeaders);
    var requested := Pieces(rawAch, RUST_SEPARATOR);
    forall p | p in requested
      ensures Lower(p) in FromPy(cfg).allowHeadersLower
              <==> exists h :: h in cfg.allowHeaders && h != "*" && Lower(h) == Lower(p) {}
  }

  /** The method of a preflight is granted if it is listed, ignoring case. */
  predicate MethodGranted(cfg: CorsConfig, verb: string) {
    exists v :: v in cfg.allowMethods && Upper(v) == Upper(verb)
  }

  lemma MethodIsGrantedExactly(cfg: CorsConfig, verb: string)
    ensures Upper(verb) in FromPy(cfg).allowMethodsUpper <==> MethodGranted(cfg, verb)
  {}

  /** The headers of a granted preflight, by name. */
  function GrantHeaders(cfg: CorsConfig, origin: string, headers: string): HeaderList {
    [("Access-Control-Allow-Origin", origin),
     ("Access-Control-Allow-Methods", Join(cfg.allowMethods, ", ")),
     ("Access-Control-Allow-Headers", headers)]
    + (if cfg.allowCredentials then [("Access-Control-Allow-Credentials", "true")] else [])
    + (if cfg.maxAge.Some? then [("Access-Control-Max-Age", Decimal.PrintNat(cfg.maxAge.value))] else [])
    + (if origin != "*" then [("Vary", "Origin")] else [])
  }

  /** A preflight is granted if and only if its method, its origin and its headers are, and the answer
      names what is granted; otherwise the refusal names the first of the three that is not. */
  lemma PreflightIsGrantedExactly(cfg: CorsConfig, rawAcrm: string, origin: string, rawAch: string)
    ensures var requested := Pieces(rawAch, RUST_SEPARATOR);
            var wild := cfg.allowOrigins == ["*"] && !cfg.allowCredentials;
            FromPy(cfg).HandlePreflight(rawAcrm, origin, rawAch)
            == if !MethodGranted(cfg, Trim(rawAcrm, IsRustSpace)) then Err(MethodRefused)
               else if origin == "" || !(wild || origin in cfg.allowOrigins) then Err(OriginRefused)
               else if !HeadersGranted(cfg, requested) then Err(HeadersRefused)
               else Ok(GrantHeaders(cfg, if wild then "*" else origin, HeadersAnswer(cfg, requested)))
  {
    MethodIsGrantedExactly(cfg, Trim(rawAcrm, IsRustSpace));
    OriginIsGrantedExactly(cfg, origin);
    HeadersAreGrantedExactly(cfg, rawAch);
    if FromPy(cfg).Verdict(rawAcrm, origin, rawAch).Ok? {
      var (selected, acah) := FromPy(cfg).Verdict(rawAcrm, origin, rawAch).value;
      HeadersAreListed(cfg, selected, acah);
    }
  }

  lemma HeadersAreListed(cfg: CorsConfig, selected: string, acah: string)
    ensures FromPy(cfg).PreflightHeaders(selected, acah) == GrantHeaders(cfg, selected, acah)
  {}

  /** What an ordinary response to an origin carries. */
  lemma ResponseIsGrantedExactly(cfg: CorsConfig, origin: string)
    ensures var wild := cfg.allowOrigins == ["*"] && !cfg.allowCredentials;
            var value := if wild then "*" else origin;
            FromPy(cfg).ResponseHeaderPairs(origin)
            == if origin == "" || !(wild || origin in cfg.allowOrigins) then []
               else [("Access-Control-Allow-Origin", value)]
                    + (if cfg.allowCredentials then [("Access-Control-Allow-Credentials", "true")] else [])
                    + (if cfg.exposeHeaders != []
                       then [("Access-Control-Expose-Headers", Join(cfg.exposeHeaders, ", "))] else [])
                    + (if value != "*" then [("Vary", "Origin")] else [])
  {
    OriginIsGrantedExactly(cfg, origin);
  }

  // ---- Lists of names --------------------------------------------------------------------------

  /** A word of a list. */
  predicate IsWord(s: string, sep: char -> bool) {
    s != "" && forall c | c in s :: !sep(c)
  }

  lemma {:induction false} WholeWord(s: string, sep: char -> bool)
    requires IsWord(s, sep)
    ensures WordLength(s, sep) == |s|
  {
    if |s| > 1 {
      assert s[1] in s && forall c | c in s[1..] :: c in s;
      WholeWord(s[1..], sep);
    }
  }

  lemma OneWordIsOnePiece(s: string, sep: char -> bool)
    requires IsWord(s, sep)
    ensures Pieces(s, sep) == [s]
  {
    assert s[0] in s;
    WholeWord(s, sep);
    WordThenPieces(s, sep);
    assert s[..|s|] == s && Pieces(s[|s|..], sep) == [];
  }

  /** A list of names written with commas is read back name by name. */
  lemma {:induction false} ListReadsBack(words: seq<string>, sep: char -> bool)
    requires (forall s | s in words :: IsWord(s, sep)) && sep(',') && sep(' ')
    ensures Pieces(Join(words, ", "), sep) == words
  {
    if |words| == 1 {
      OneWordIsOnePiece(words[0], sep);
    } else if words != [] {
      var rest := Join(words[1..], ", ");
      ListReadsBack(words[1..], sep);
      PiecesConcat(words[0], ", " + rest, sep);
      LeadingSeparators(", ", rest, sep);
      OneWordIsOnePiece(words[0], sep);
      assert words[0] + ", " + rest == words[0] + (", " + rest);
      assert words == [words[0]] + words[1..];
    }
  }
}
