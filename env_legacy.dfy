/** The older environment reader `_Env`: each credential straight from the
    process environment, `None` when a variable is missing, and the
    database variable chosen by the `alt_api_db` argument. */
module LegacyEnv {
  import opened Wrappers
  import opened PyValues
  import C = Credentials

  const UsernameVariable := "ODOO_API_USERNAME"
  const TokenVariable := "ODOO_API_TOKEN"
  const PasswordVariable := "ODOO_API_PASSWORD"
  const UrlVariable := "ODOO_API_URL"
  const DbVariable := "ODOO_API_DB"
  const AltDbVariable := "ODOO_API_ALT_DB"

  /** The `alt_api_db` argument: a flag, a string, or anything else
      (`None` included). */
  datatype AltArg = AltBool(b: bool) | AltStr(name: string) | AltOther

  /** `os.environ.get(name)`: the value, or `None`; it never raises. */
  function Get(environ: map<string, string>, name: string): (r: Option<string>)
    ensures r.Some? <==> name in environ
    ensures r.Some? ==> r.value == environ[name]
  {
    if name in environ then Some(environ[name]) else None
  }

  /** The variable the database is read from. */
  function DatabaseVariable(alt: AltArg): string {
    match alt
    case AltBool(b) => if b then AltDbVariable else DbVariable
    case AltStr(name) => name
    case AltOther => DbVariable
  }

  /** Only `True`, or the alternate variable's own name given as a string,
      selects the alternate database; a string is used as the variable
      name itself, with no prefix; every non-string selects one of the two
      fixed variables. */
  lemma DatabaseVariableChoices(alt: AltArg)
    ensures DatabaseVariable(alt) == AltDbVariable <==> alt == AltBool(true) || alt == AltStr(AltDbVariable)
    ensures alt.AltStr? ==> DatabaseVariable(alt) == alt.name
    ensures !alt.AltStr? ==> DatabaseVariable(alt) in {DbVariable, AltDbVariable}
    ensures DatabaseVariable(alt) == DbVariable <==> alt in {AltBool(false), AltOther, AltStr(DbVariable)}
  {
  }

  /** The environment reader. */
  class Env {
    var username: Option<string>
    var token: Option<string>
    var password: Option<string>
    var url: Option<string>
    var apiDb: Option<string>

    /** `_Env(alt_api_db)`: every field read with `os.environ.get`, so a
        missing variable leaves its field `None`. */
    constructor (environ: map<string, string>, alt: AltArg)
      ensures username == Get(environ, UsernameVariable)
      ensures token == Get(environ, TokenVariable)
      ensures password == Get(environ, PasswordVariable)
      ensures url == Get(environ, UrlVariable)
      ensures apiDb == Get(environ, DatabaseVariable(alt))
    {
      username := Get(environ, UsernameVariable);
      token := Get(environ, TokenVariable);
      password := Get(environ, PasswordVariable);
      url := Get(environ, UrlVariable);
      match alt {
        case AltBool(b) =>
          if b {
            apiDb := Get(environ, AltDbVariable);
          } else {
            apiDb := Get(environ, DbVariable);
          }
        case AltStr(name) =>
          apiDb := Get(environ, name);
        case AltOther =>
          apiDb := Get(environ, DbVariable);
      }
    }
  }

  /** The newer credentials' configuration, when it is read from the same
      variables. */
  function ConfigOf(environ: map<string, string>): C.Config {
    C.Config(Get(environ, UsernameVariable), Get(environ, TokenVariable), Get(environ, UrlVariable),
             Get(environ, DbVariable), Get(environ, AltDbVariable))
  }

  /** The two generations agree on `None`, `False` and a configured `True`;
      for `True` without an alternate database the older reader quietly
      gives `None` where the newer one raises. */
  lemma FlagsAcrossGenerations(environ: map<string, string>, altDbName: string, variable: C.Lookup)
    ensures C.Database(ConfigOf(environ), C.Unset, altDbName, variable) == Success(Get(environ, DatabaseVariable(AltOther)))
    ensures C.Database(ConfigOf(environ), C.Flag(false), altDbName, variable) == Success(Get(environ, DatabaseVariable(AltBool(false))))
    ensures AltDbVariable in environ ==>
              C.Database(ConfigOf(environ), C.Flag(true), altDbName, variable) == Success(Get(environ, DatabaseVariable(AltBool(true))))
    ensures AltDbVariable !in environ ==>
              && Get(environ, DatabaseVariable(AltBool(true))) == None
              && C.Database(ConfigOf(environ), C.Flag(true), altDbName, variable) == Failure(DatabaseNotDefinedError)
  {
  }
}
