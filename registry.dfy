/** The process-wide dependency registry that `assertDependency` writes to: a
    set of (kind, key) claims, so that no two data sources bind the same
    resource, for instance the same capture file. */
module Registry {

  datatype Claim = Claim(kind: string, key: string)

  class DependencyRegistry {
    var claims: set<Claim>

    constructor ()
      ensures claims == {}
    {
      claims := {};
    }

    /** Claims `(kind, key)`. Succeeds exactly when nobody held it before; either
        way the key is held afterwards, and nothing else changes. */
    method AssertDependency(kind: string, key: string) returns (ok: bool)
      modifies this
      ensures ok <==> Claim(kind, key) !in old(claims)
      ensures claims == old(claims) + {Claim(kind, key)}
    {
      ok := Claim(kind, key) !in claims;
      claims := claims + {Claim(kind, key)};
    }
  }
}
