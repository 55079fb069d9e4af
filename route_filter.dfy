/**
 * The route classifier: a request is secured exactly when its path contains
 * none of the public endpoint fragments. Matching is literal substring
 * containment on the raw path, anywhere in it.
 */
module RouteFilter {
  import opened Strings
  import opened Http

  /** The public fragments, in the order they are declared. */
  const OpenApiEndpoints: seq<string> :=
    ["/api/user", "/api/auth/login", "/api/auth/refresh", "api/users/search"]

  /**
   * `fragments.stream().noneMatch(f -> path.contains(f))`: true exactly
   * when no fragment of the list is a substring of the path.
   */
  function NoneContained(fragments: seq<string>, path: string): (secured: bool)
    ensures secured <==> forall f :: f in fragments ==> !IsSubstring(f, path)
  {
    if fragments == [] then true
    else !Contains(path, fragments[0]) && NoneContained(fragments[1..], path)
  }

  /**
   * The `isSecured` predicate of the gateway: reads nothing but the path, and
   * holds exactly when none of the four declared fragments occurs in it.
   */
  function IsSecured(request: Request): (secured: bool)
    ensures secured <==>
      && !IsSubstring("/api/user", request.path)
      && !IsSubstring("/api/auth/login", request.path)
      && !IsSubstring("/api/auth/refresh", request.path)
      && !IsSubstring("api/users/search", request.path)
  {
    NoneContained(OpenApiEndpoints, request.path)
  }

  /** A request is public iff one of the four fragments occurs in its path. */
  lemma PublicIffFragmentOccurs(request: Request)
    ensures !IsSecured(request) <==> exists f :: f in OpenApiEndpoints && IsSubstring(f, request.path)
  {
  }

  /** The decision depends on the path only: headers and method play no part. */
  lemma SecuredDependsOnlyOnPath(r1: Request, r2: Request)
    requires r1.path == r2.path
    ensures IsSecured(r1) == IsSecured(r2)
  {
  }

  /** Public stays public when anything is added before or after the path. */
  lemma PublicIsMonotone(request: Request, left: string, right: string)
    requires !IsSecured(request)
    ensures !IsSecured(request.(path := left + request.path + right))
  {
    var f :| f in OpenApiEndpoints && IsSubstring(f, request.path);
    SubstringWidens(f, request.path, left, right);
  }

  /** Any path containing "/api/user" anywhere is public. */
  lemma UserFragmentMakesPublic(request: Request)
    requires IsSubstring("/api/user", request.path)
    ensures !IsSecured(request)
  {
    assert "/api/user" in OpenApiEndpoints;
  }

  /** "/x/api/users/42" is public: the fragment may sit anywhere in the path. */
  lemma NestedUserPathIsPublic(request: Request)
    requires request.path == "/x/api/users/42"
    ensures !IsSecured(request)
  {
    assert request.path == "/x" + "/api/user" + "s/42";
    UserFragmentMakesPublic(request);
  }

  /** "/api/user-admin" is public: the fragment need not end at a path segment. */
  lemma UserAdminPathIsPublic(request: Request)
    requires request.path == "/api/user-admin"
    ensures !IsSecured(request)
  {
    assert request.path == [] + "/api/user" + "-admin";
    UserFragmentMakesPublic(request);
  }

  /** Matching is case-sensitive: the upper-case "/API/USER" is secured. */
  lemma UpperCasePathIsSecured(verb: string, headers: Headers)
    ensures IsSecured(Request(verb, "/API/USER", headers))
  {
    var path := "/API/USER";
    assert 'a' !in path;
    forall f | f in OpenApiEndpoints ensures !IsSubstring(f, path) {
      assert 'a' in f;
      SubstringKeepsChars(f, path);
    }
  }

  /** The empty path is secured: no fragment is empty. */
  lemma EmptyPathIsSecured(verb: string, headers: Headers)
    ensures IsSecured(Request(verb, "", headers))
  {
    forall f | f in OpenApiEndpoints ensures !IsSubstring(f, "") {
      SubstringOfEmpty(f);
    }
  }

  /** Reordering (or repeating) the fragments does not change the decision. */
  lemma SecuredIndependentOfOrder(fragments: seq<string>, reordered: seq<string>, path: string)
    requires forall f :: f in fragments <==> f in reordered
    ensures NoneContained(fragments, path) == NoneContained(reordered, path)
  {
  }
}
