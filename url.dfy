/**
 * URL normalisation (src/main.rs:132-138). The test is the literal prefix
 * `http`, not a scheme check: `httpbin.org` is left as it is.
 */
module Url {

  /** The URL the request is sent to. */
  function Normalized(url: string): string {
    if "http" <= url then url
    else if ":" <= url then "http://localhost" + url
    else "http://" + url
  }

  /** `url` is reassigned in place: first `localhost` for a bare port, then the scheme. */
  method NormalizeUrl(given: string) returns (url: string)
    ensures url == Normalized(given)
  {
    url := given;
    if !("http" <= url) {
      if ":" <= url {
        url := "localhost" + url;
      }
      url := "http://" + url;
    }
  }

  /** Every normalised URL starts with `http` and ends with what was given. */
  lemma NormalizedShape(url: string)
    ensures "http" <= Normalized(url)
    ensures |url| <= |Normalized(url)| && Normalized(url)[|Normalized(url)| - |url|..] == url
  {
  }

  /** A URL is left unchanged exactly when it already starts with `http`. */
  lemma UnchangedIff(url: string)
    ensures Normalized(url) == url <==> "http" <= url
  {
    if !("http" <= url) {
      assert |Normalized(url)| > |url|;
    }
  }

  /** Normalising twice is normalising once. */
  lemma Idempotent(url: string)
    ensures Normalized(Normalized(url)) == Normalized(url)
  {
    NormalizedShape(url);
  }

  lemma BarePortExample()
    ensures Normalized(":5000") == "http://localhost:5000"
  {
    assert !("http" <= ":5000") by { assert ":5000"[0] != "http"[0]; }
    assert ":" <= ":5000";
  }

  lemma HostExample()
    ensures Normalized("example.com") == "http://example.com"
  {
    assert !("http" <= "example.com") by { assert "example.com"[0] != "http"[0]; }
    assert !(":" <= "example.com") by { assert "example.com"[0] != ':'; }
  }

  lemma SchemeExample()
    ensures Normalized("https://example.com") == "https://example.com"
  {
  }

  /** Only the prefix is tested, so a host that starts with `http` gets no scheme. */
  lemma HttpHostExample()
    ensures Normalized("httpbin.org/get") == "httpbin.org/get"
  {
  }
}
