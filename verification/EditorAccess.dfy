/** Editor tokens, document roles and sessions together: what opens an editor, and what does not close it. */
module EditorAccess {
  import opened Common
  import opened Permission
  import Theorems = PermissionTheorems
  import Token
  import Identity

  /** The permission service as the editor asks it. */
  function RolesIn(t: Tables): (string, string) -> Option<Role> {
    (user, doc) => Some(RoleOf(t, user, doc))
  }

  function AccessOf(role: Role): Token.Access {
    match role
    case Owner => Token.Write
    case Editor => Token.Write
    case Viewer => Token.View
    case NoRole => Token.Forbidden
  }

  /** A minted token opens its own editor, before it expires, exactly for the documents listed to its user then. */
  lemma TokenOpensWhatIsListed(config: Token.Config, t: Tables, user: string, name: string, doc: string, role: string,
                               kind: string, minted: int, now: int)
    requires config.codec.RoundTrips() && |config.secret| >= Token.MIN_SECRET
    requires Theorems.Reachable(t) && user != "" && doc != ""
    ensures var token := Token.Mint(config, user, name, doc, role, kind, minted).value;
            var access := Token.AuthorizeCollab(config, token, doc, kind, now, RolesIn(t));
            access == (if now < minted + Token.TOKEN_SECONDS then AccessOf(RoleOf(t, user, doc)) else Token.Forbidden)
            && (access == Token.Write || access == Token.View <==>
                now < minted + Token.TOKEN_SECONDS && doc in DocIds(Accessible(t, user)))
  {
    Token.AccessIsCurrentRole(config, user, name, doc, role, kind, minted, doc, kind, now, RolesIn(t));
    Theorems.ListingAgreesWithRole(t, user);
  }

  /**
    Disabling a user ends their sessions' authority at once, but not that of an editor token minted
    before: it reads the current role and never the disabled flag, and stays good for its 900 seconds.
   */
  lemma EditorTokenOutlivesDisabling(config: Token.Config, cfg: Identity.Config, s: Identity.State, t: Tables,
                                     user: string, name: string, doc: string, role: string, kind: string, minted: int)
    requires config.codec.RoundTrips() && |config.secret| >= Token.MIN_SECRET
    requires Theorems.Reachable(t) && user != "" && doc != "" && RoleOf(t, user, doc) != NoRole
    requires user in s.users && s.users[user].disabled && s.now < minted + Token.TOKEN_SECONDS
    ensures forall session :: Identity.Authenticated(cfg, s, session) != Some(user)
    ensures var token := Token.Mint(config, user, name, doc, role, kind, minted).value;
            Token.AuthorizeCollab(config, token, doc, kind, s.now, RolesIn(t)) == AccessOf(RoleOf(t, user, doc))
            && AccessOf(RoleOf(t, user, doc)) != Token.Forbidden
  {
    TokenOpensWhatIsListed(config, t, user, name, doc, role, kind, minted, s.now);
  }
}
