/** The auth middleware: `protect`, which reads a bearer token from the
    Authorization header, verifies it and loads the admin it names onto the
    request, and `isSuperAdmin`, the role gate. Token verification is
    the JSON Web Token check (RFC 7519) and is passed in as a function. */
module Auth {
  import opened Basics
  import opened Text
  import opened Store

  const NoToken := "Not authorized, no token"
  const TokenFailed := "Not authorized, token failed"
  const AdminNotFound := "Not authorized, admin not found"
  const AccountDeactivated := "Admin account is deactivated"
  const SuperAdminOnly := "Access denied. Super admin privileges required."

  /** What a middleware does with a request: pass it on (`next()`), or
      answer it with an error status and message. */
  datatype Gate = Next | Deny(code: int, message: string)

  /** The parts of an Express request the middleware reads and writes. */
  class Request {
    var authorization: Option<string>
    var admin: Option<AdminView>

    constructor (authorization: Option<string>)
      ensures this.authorization == authorization && admin.None?
    {
      this.authorization := authorization;
      admin := None;
    }
  }

  /** `Admin.findById(id).select('-password')`. */
  function FindById(admins: seq<Admin>, id: nat): (r: Option<AdminView>)
    ensures r.Some? ==> exists k | 0 <= k < |admins| :: admins[k].id == id && View(admins[k]) == r.value
    ensures r.None? ==> forall k | 0 <= k < |admins| :: admins[k].id != id
  {
    if admins == [] then None
    else if admins[0].id == id then Some(View(admins[0]))
    else
      var r := FindById(admins[1..], id);
      assert r.Some? ==> exists k | 1 <= k < |admins| :: admins[k].id == id && View(admins[k]) == r.value by {
        if r.Some? {
          var k :| 0 <= k < |admins[1..]| && admins[1..][k].id == id && View(admins[1..][k]) == r.value;
          assert admins[k + 1] == admins[1..][k];
        }
      }
      r
  }

  /** `header.split(' ')[1]`: the second space-separated part, if there is
      one. */
  function TokenOf(header: string): Option<string>
  {
    var parts := Split(header, ' ');
    if |parts| >= 2 then Some(parts[1]) else None
  }

  /** `protect` as a function of the header, the admins, the verifier and
      what `req.admin` held before: the gate and the new `req.admin`. A
      header that is missing or does not start with 'Bearer' has no token.
      Otherwise a missing or empty token, or one `verify` refuses, fails;
      a verified token sets `req.admin` to the admin it names, if any, and
      passes only an active admin. */
  function ProtectSpec(admins: seq<Admin>, header: Option<string>, verify: string -> Option<nat>, prior: Option<AdminView>)
    : (Gate, Option<AdminView>)
  {
    if header.None? || !StartsWith(header.value, "Bearer") then (Deny(401, NoToken), prior)
    else
      match TokenOf(header.value)
      case None => (Deny(401, TokenFailed), prior)
      case Some(token) =>
        if token == "" then (Deny(401, TokenFailed), prior)
        else
          match verify(token)
          case None => (Deny(401, TokenFailed), prior)
          case Some(id) =>
            var admin := FindById(admins, id);
            if admin.None? then (Deny(401, AdminNotFound), admin)
            else if !admin.value.isActive then (Deny(401, AccountDeactivated), admin)
            else (Next, admin)
  }

  /** `protect`, setting `req.admin` in place. */
  method Protect(req: Request, admins: seq<Admin>, verify: string -> Option<nat>) returns (gate: Gate)
    modifies req
    ensures (gate, req.admin) == ProtectSpec(admins, old(req.authorization), verify, old(req.admin))
    ensures req.authorization == old(req.authorization)
  {
    var header := req.authorization;
    if header.None? || !StartsWith(header.value, "Bearer") {
      return Deny(401, NoToken);
    }
    var token := TokenOf(header.value);
    if token.None? || token.value == "" {
      return Deny(401, TokenFailed);
    }
    var decoded := verify(token.value);
    if decoded.None? {
      return Deny(401, TokenFailed);
    }
    req.admin := FindById(admins, decoded.value);
    if req.admin.None? {
      return Deny(401, AdminNotFound);
    }
    if !req.admin.value.isActive {
      return Deny(401, AccountDeactivated);
    }
    gate := Next;
  }

  /** `protect` passes a request exactly when its header starts with
      'Bearer', its second part is a token `verify` accepts, and that token
      names an active admin, who is then on the request. Every denial is a
      401; a request without a usable header is told it has no token and
      leaves `req.admin` alone. */
  lemma ProtectGate(admins: seq<Admin>, header: Option<string>, verify: string -> Option<nat>, prior: Option<AdminView>)
    ensures var (gate, admin) := ProtectSpec(admins, header, verify, prior);
      && (gate == Next <==>
            && header.Some? && StartsWith(header.value, "Bearer")
            && TokenOf(header.value).Some? && TokenOf(header.value).value != ""
            && verify(TokenOf(header.value).value).Some?
            && FindById(admins, verify(TokenOf(header.value).value).value).Some?
            && FindById(admins, verify(TokenOf(header.value).value).value).value.isActive)
      && (gate == Next ==>
            admin.Some? && admin.value.isActive
            && exists k | 0 <= k < |admins| :: View(admins[k]) == admin.value)
      && (gate.Deny? ==> gate.code == 401)
      && (header.None? || !StartsWith(header.value, "Bearer") ==> gate == Deny(401, NoToken) && admin == prior)
  {
  }

  /** A well-formed bearer header, "Bearer" and one space before a token
      with no space in it, yields that token. */
  lemma BearerToken(token: string)
    requires token != [] && ' ' !in token
    ensures StartsWith("Bearer " + token, "Bearer")
    ensures TokenOf("Bearer " + token) == Some(token)
  {
    var parts := ["Bearer", token];
    assert Join(parts, [' ']) == "Bearer " + token by {
      assert Join(parts[1..], [' ']) == token;
    }
    SplitJoin(parts, ' ');
  }

  /** The prefix test is looser than the bearer scheme of section 2.1 of
      RFC 6750, which requires "Bearer" to be followed by a space: whatever
      space-free text follows "Bearer" (as in "Bearerx t"), the header
      passes the test, and the token is what follows the first space. */
  lemma LooseBearerPrefix(rest: string, token: string)
    requires ' ' !in rest && ' ' !in token
    ensures StartsWith("Bearer" + rest + " " + token, "Bearer")
    ensures TokenOf("Bearer" + rest + " " + token) == Some(token)
  {
    var parts := ["Bearer" + rest, token];
    assert Join(parts, [' ']) == "Bearer" + rest + " " + token by {
      assert Join(parts[1..], [' ']) == token;
    }
    assert ' ' !in "Bearer" + rest by {
      assert forall k | 0 <= k < |"Bearer" + rest| :: ("Bearer" + rest)[k] != ' ' by {
        forall k | 0 <= k < |"Bearer" + rest| ensures ("Bearer" + rest)[k] != ' ' {
          if k >= 6 {
            assert ("Bearer" + rest)[k] == rest[k - 6];
          }
        }
      }
    }
    SplitJoin(parts, ' ');
  }

  /** The scheme allows several spaces before the token; the handler then
      takes the empty part between them as the token and fails, whatever
      the token. */
  lemma DoubleSpaceFails(admins: seq<Admin>, verify: string -> Option<nat>, prior: Option<AdminView>, token: string)
    requires ' ' !in token
    ensures ProtectSpec(admins, Some("Bearer  " + token), verify, prior) == (Deny(401, TokenFailed), prior)
  {
    var parts := ["Bearer", "", token];
    assert Join(parts, [' ']) == "Bearer  " + token by {
      assert Join(parts[2..], [' ']) == token;
      assert Join(parts[1..], [' ']) == " " + token;
    }
    SplitJoin(parts, ' ');
    var header := "Bearer  " + token;
    assert header[..6] == "Bearer";
  }

  /** `isSuperAdmin`: pass a request whose admin is a super admin, answer
      every other with 403. */
  function IsSuperAdmin(admin: Option<AdminView>): (gate: Gate)
    ensures gate == Next || gate == Deny(403, SuperAdminOnly)
  {
    if admin.Some? && admin.value.role == SuperAdmin then Next else Deny(403, SuperAdminOnly)
  }

  /** Behind `protect`, the role gate passes exactly the requests whose
      verified token names an active super admin. */
  lemma SuperAdminBehindProtect(admins: seq<Admin>, header: Option<string>, verify: string -> Option<nat>, prior: Option<AdminView>)
    requires ProtectSpec(admins, header, verify, prior).0 == Next
    ensures var admin := ProtectSpec(admins, header, verify, prior).1;
      IsSuperAdmin(admin) == Next <==>
        exists k | 0 <= k < |admins| :: View(admins[k]) == admin.value && admins[k].isActive && admins[k].role == SuperAdmin
  {
    ProtectGate(admins, header, verify, prior);
  }
}
