/** How `app/database.py` chooses the database URL from the `DB_URL`
    environment variable, and whether the engine is a SQLite one. */
module DatabaseUrl {
  import opened Wrappers
  import opened Text

  /** The local SQLite file used when `DB_URL` is unset or empty. */
  const DefaultUrl: string := "sqlite:///data/osint.db"

  const SslParameter: string := "sslmode=require"

  /** What the module settles on: the URL given to the engine, and whether
      the engine gets SQLite's `check_same_thread=False`. */
  datatype Engine = Engine(url: string, isSqlite: bool)

  /** A PostgreSQL URL without an `sslmode` gets `sslmode=require`,
      appended as the first or as a further query parameter. */
  function WithSslmode(url: string): (r: string)
    ensures StartsWith(r, url)
    ensures StartsWith(url, "postgres") ==> Contains(r, "sslmode")
    ensures !StartsWith(url, "postgres") || Contains(url, "sslmode") ==> r == url
  {
    if StartsWith(url, "postgres") && !Contains(url, "sslmode") then
      var sep := if '?' in url then "&" else "?";
      var r := url + sep + SslParameter;
      assert r[..|url|] == url;
      assert OccursAt(r, "sslmode", |url| + 1) by {
        assert r[|url| + 1..] == SslParameter;
        assert r[|url| + 1..|url| + 8] == SslParameter[..7] == "sslmode";
      }
      r
    else url
  }

  /** The URL and the SQLite flag for a value of `DB_URL` (`None` when it
      is unset). */
  function Configure(dbUrl: Option<string>): (e: Engine)
    ensures !Truthy(dbUrl) ==> e == Engine(DefaultUrl, true)
    ensures Truthy(dbUrl) ==> StartsWith(e.url, dbUrl.value)
    ensures e.isSqlite <==> StartsWith(e.url, "sqlite")
  {
    if Truthy(dbUrl) then
      var url := WithSslmode(dbUrl.value);
      Engine(url, StartsWith(url, "sqlite"))
    else
      assert StartsWith(DefaultUrl, "sqlite");
      Engine(DefaultUrl, true)
  }

  /** The parameter is appended with "?" when the URL has no query yet,
      with "&" when it has one. */
  lemma SslmodeSeparator(url: string)
    requires StartsWith(url, "postgres") && !Contains(url, "sslmode")
    ensures '?' !in url ==> WithSslmode(url) == url + "?sslmode=require"
    ensures '?' in url ==> WithSslmode(url) == url + "&sslmode=require"
  {
    var sep := if '?' in url then "&" else "?";
    assert WithSslmode(url) == url + sep + SslParameter;
  }

  /** Rewriting an already rewritten URL changes nothing. */
  lemma WithSslmodeIdempotent(url: string)
    ensures WithSslmode(WithSslmode(url)) == WithSslmode(url)
  {
    var r := WithSslmode(url);
    if StartsWith(url, "postgres") {
      assert r[..8] == url[..8] by {
        assert r[..|url|] == url;
      }
      assert StartsWith(r, "postgres");
    }
  }

  /** A URL that is not PostgreSQL is used as it is, and only one that
      starts with "sqlite" counts as SQLite. */
  lemma OtherUrlsUnchanged(url: string)
    requires url != [] && !StartsWith(url, "postgres")
    ensures Configure(Some(url)) == Engine(url, StartsWith(url, "sqlite"))
  {
  }

  /** A PostgreSQL URL never counts as SQLite. */
  lemma PostgresNotSqlite(url: string)
    requires StartsWith(url, "postgres")
    ensures !Configure(Some(url)).isSqlite
  {
    var e := Configure(Some(url));
    assert e.url[..8] == url[..8] by {
      assert e.url[..|url|] == url;
    }
    assert e.url[0] == 'p';
  }
}
