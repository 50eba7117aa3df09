/** Keys under which requests are coalesced and cached. */
module Keys {
  import opened Status

  predicate NulFree(s: Bytes) {
    0 !in s
  }

  /** The proxy's key: path, NUL, body. */
  function RequestKey(path: Bytes, body: Bytes): Bytes {
    path + [0] + body
  }

  /** The client library's default key: service, NUL, method, NUL, request bytes. */
  function ClientKey(service: Bytes, method_: Bytes, request: Bytes): Bytes {
    service + [0] + method_ + [0] + request
  }

  /** Requests on NUL-free paths share a key only when path and body are equal. */
  lemma RequestKeyInjective(path: Bytes, body: Bytes, path': Bytes, body': Bytes)
    requires NulFree(path) && NulFree(path') && RequestKey(path, body) == RequestKey(path', body')
    ensures path == path' && body == body'
  {
    var k, k' := RequestKey(path, body), RequestKey(path', body');
    assert k[|path|] == 0 && k'[|path'|] == 0;
    assert forall j | 0 <= j < |path| :: k[j] == path[j] != 0;
    assert forall j | 0 <= j < |path'| :: k'[j] == path'[j] != 0;
    assert |path| == |path'|;
    assert path == k[..|path|] == k'[..|path'|] == path';
    assert body == k[|path| + 1..] == k'[|path'| + 1..] == body';
  }

  lemma ClientKeyInjective(s: Bytes, m: Bytes, r: Bytes, s': Bytes, m': Bytes, r': Bytes)
    requires NulFree(s) && NulFree(m) && NulFree(s') && NulFree(m') && ClientKey(s, m, r) == ClientKey(s', m', r')
    ensures s == s' && m == m' && r == r'
  {
    assert ClientKey(s, m, r) == RequestKey(s, RequestKey(m, r));
    assert ClientKey(s', m', r') == RequestKey(s', RequestKey(m', r'));
    RequestKeyInjective(s, RequestKey(m, r), s', RequestKey(m', r'));
    RequestKeyInjective(m, r, m', r');
  }

  /** The NUL-free condition is needed: a path with a NUL shares its key with another request. */
  lemma NulPathCollides(path: Bytes, body: Bytes)
    requires !NulFree(path)
    ensures exists path': Bytes, body': Bytes ::
              path' != path && NulFree(path') && RequestKey(path', body') == RequestKey(path, body)
  {
    var i := FirstNul(path);
    var path', body' := path[..i], path[i + 1..] + [0] + body;
    assert path == path[..i] + [0] + path[i + 1..];
    assert RequestKey(path', body') == RequestKey(path, body);
  }

  lemma FirstNul(s: Bytes) returns (i: nat)
    requires !NulFree(s)
    ensures i < |s| && s[i] == 0 && NulFree(s[..i])
  {
    i := 0;
    while s[i] != 0
      invariant i < |s| && NulFree(s[..i])
      invariant exists j :: i <= j < |s| && s[j] == 0
      decreases |s| - i
    {
      i := i + 1;
    }
  }
}
