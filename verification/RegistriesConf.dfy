/** Docker and makisu registry configuration: how credentials are written and read. */
module RegistriesConf {
  import opened Wrappers
  import opened Text
  import opened Base64

  const COLON: byte := 58

  /** Registry to base64 encoded basic auth credentials. */
  type Auths = map<string, string>

  datatype BasicAuth = BasicAuth(username: Bytes, password: Bytes)

  /** Registry to repository pattern to credentials. */
  type Makisu = map<string, map<string, BasicAuth>>

  function AuthString(user: Bytes, passwd: Bytes): string {
    Encode(user + [COLON] + passwd)
  }

  function ToMakisuBasicAuth(auth: string): Option<BasicAuth> {
    match Decode(auth)
    case None => None
    case Some(d) =>
      match SplitFirst(d, COLON)
      case Whole(all) => Some(BasicAuth(all, []))
      case Parts(user, passwd) => Some(BasicAuth(user, passwd))
  }

  /** Credentials survive the docker config exactly when the user has no colon (section 2 of RFC 7617). */
  lemma CredentialRoundTrip(user: Bytes, passwd: Bytes)
    ensures ToMakisuBasicAuth(AuthString(user, passwd)) == Some(BasicAuth(user, passwd)) <==> COLON !in user
  {
    DecodeEncode(user + [COLON] + passwd);
    if COLON !in user {
      SplitJoin(user, COLON, passwd);
    }
  }

  /** A colon in the user moves what follows it into the password; nothing else is lost. */
  lemma CredentialWithColon(head: Bytes, tail: Bytes, passwd: Bytes)
    requires COLON !in head
    ensures ToMakisuBasicAuth(AuthString(head + [COLON] + tail, passwd))
         == Some(BasicAuth(head, tail + [COLON] + passwd))
  {
    var all := head + [COLON] + tail + [COLON] + passwd;
    DecodeEncode(all);
    assert all == head + [COLON] + (tail + [COLON] + passwd);
    SplitJoin(head, COLON, tail + [COLON] + passwd);
  }

  /** What is not base64 is refused; a text without a colon is all user. */
  lemma AuthWithoutColon(auth: string)
    ensures ToMakisuBasicAuth(auth).Some? <==> Decode(auth).Some?
    ensures Decode(auth).Some? && 58 !in Decode(auth).value ==>
              ToMakisuBasicAuth(auth) == Some(BasicAuth(Decode(auth).value, []))
  {
  }

  /** The auth text is that of user, colon and password (section 2 of RFC 7617). */
  lemma AuthDecodes(user: Bytes, passwd: Bytes)
    ensures Decode(AuthString(user, passwd)) == Some(user + [58] + passwd)
  {
    DecodeEncode(user + [58] + passwd);
  }

  class DockerConfig {
    var auths: Option<Auths>

    constructor (auths: Option<Auths>)
      ensures this.auths == auths
    {
      this.auths := auths;
    }

    function Entries(): Auths
      reads this
    {
      if auths.None? then map[] else auths.value
    }

    method AddAuth(registry: string, user: Bytes, passwd: Bytes)
      modifies this
      ensures auths == Some(old(Entries())[registry := AuthString(user, passwd)])
    {
      if auths.None? {
        auths := Some(map[]);
      }
      var encoded := Encode(user + [COLON] + passwd);
      auths := Some(auths.value[registry := encoded]);
    }

    method SetAuth(registry: string, auth: string)
      requires auths.Some?
      modifies this
      ensures auths == Some(old(auths.value)[registry := auth])
    {
      auths := Some(auths.value[registry := auth]);
    }
  }

  class MakisuRegistries {
    var registries: Makisu

    constructor ()
      ensures registries == map[]
    {
      registries := map[];
    }

    method AddRegistry(registry: string, image: string, auth: BasicAuth)
      modifies this
      ensures registries.Keys == old(registries.Keys) + {registry}
      ensures forall r :: r in old(registries) && r != registry ==> registries[r] == old(registries[r])
      ensures registries[registry]
           == (if registry in old(registries) then old(registries[registry]) else map[])[image := auth]
    {
      var e := map[];
      if registry in registries {
        e := registries[registry];
      }
      registries := registries[registry := e[image := auth]];
    }
  }
}
