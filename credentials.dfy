/** The connection credentials: user name, token and URL from the
    configuration, and the database chosen by the `alt_db` argument. */
module Credentials {
  import opened Wrappers
  import opened PyValues

  /** The configuration read when the package loads: each value as the
      environment helper returned it, `None` when it gave none. */
  datatype Config = Config(
    username: Option<string>,
    token: Option<string>,
    url: Option<string>,
    db: Option<string>,
    altDb: Option<string>)

  /** The `alt_db` argument: not given (`None`), a flag, or any other value,
      carried as the text an f-string renders it to. */
  datatype AltDb = Unset | Flag(on: bool) | Custom(rendered: string)

  /** What the environment helper gives for a variable name: a value, or
      the exception it raises. */
  type Lookup = string -> Result<Option<string>, PyException>

  /** The variable a custom suffix selects: the alternate-database
      variable's name, an underscore, then the suffix. */
  function CustomVariable(altDbName: string, suffix: string): string {
    altDbName + "_" + suffix
  }

  /** Different suffixes select different variables, and none of them is
      the alternate-database variable itself. */
  lemma CustomVariableInjective(altDbName: string, s1: string, s2: string)
    ensures CustomVariable(altDbName, s1) == CustomVariable(altDbName, s2) <==> s1 == s2
    ensures CustomVariable(altDbName, s1) != altDbName
  {
    var a, b := CustomVariable(altDbName, s1), CustomVariable(altDbName, s2);
    if a == b {
      assert s1 == a[|altDbName| + 1..];
      assert s2 == b[|altDbName| + 1..];
    }
    assert |a| > |altDbName|;
  }

  /** The database `Credentials(alt_db)` ends up with, or the exception
      construction raises. */
  function Database(config: Config, alt: AltDb, altDbName: string, variable: Lookup): (r: Result<Option<string>, PyException>)
    ensures alt.Unset? || alt == Flag(false) ==> r == Success(config.db)
    ensures alt == Flag(true) ==> (r.Failure? <==> config.altDb.None?)
    ensures alt == Flag(true) && r.Failure? ==> r.error == DatabaseNotDefinedError
    ensures alt == Flag(true) && r.Success? ==> r.value == config.altDb
    ensures alt.Custom? ==> r == variable(CustomVariable(altDbName, alt.rendered))
  {
    match alt
    case Unset => Success(config.db)
    case Flag(on) =>
      if on then (if config.altDb.None? then Failure(DatabaseNotDefinedError) else Success(config.altDb))
      else Success(config.db)
    case Custom(suffix) => variable(CustomVariable(altDbName, suffix))
  }

  /** When the environment helper itself never raises, the only way
      construction fails is asking for the alternate database without one
      configured. */
  lemma OnlyMissingAltDatabaseRaises(config: Config, alt: AltDb, altDbName: string, variable: Lookup)
    requires forall name :: variable(name).Success?
    ensures Database(config, alt, altDbName, variable).Failure? <==> alt == Flag(true) && config.altDb.None?
  {
    if alt.Custom? {
      assert variable(CustomVariable(altDbName, alt.rendered)).Success?;
    }
  }

  /** `False` and no argument at all select the same database. */
  lemma FalseIsDefault(config: Config, altDbName: string, variable: Lookup)
    ensures Database(config, Flag(false), altDbName, variable) == Database(config, Unset, altDbName, variable)
    ensures Database(config, Unset, altDbName, variable).Success?
  {
  }

  /** The credentials object. */
  class Credentials {
    var username: Option<string>
    var token: Option<string>
    var url: Option<string>
    var db: Option<string>

    /** The fields every construction sets first, whatever `alt_db` is;
        the database starts unset. */
    constructor (config: Config)
      ensures username == config.username && token == config.token && url == config.url
      ensures db == None
    {
      username := config.username;
      token := config.token;
      url := config.url;
      db := None;
    }

    /** `_load_custom_database(suffix)`: the database named by the
        variable the suffix selects. */
    method LoadCustomDatabase(suffix: string, altDbName: string, variable: Lookup) returns (err: Option<PyException>)
      modifies this
      ensures username == old(username) && token == old(token) && url == old(url)
      ensures var v := variable(CustomVariable(altDbName, suffix));
              && (err.Some? <==> v.Failure?)
              && (err.Some? ==> err.value == v.error && db == old(db))
              && (err.None? ==> db == v.value)
    {
      var v := variable(CustomVariable(altDbName, suffix));
      if v.Failure? {
        return Some(v.error);
      }
      db := v.value;
      err := None;
    }

    /** `_load_alternative_database(alt_db)`: a flag picks the alternate or
        the main database, refusing a missing alternate; anything else is
        a custom suffix. */
    method LoadAlternativeDatabase(config: Config, alt: AltDb, altDbName: string, variable: Lookup)
      returns (err: Option<PyException>)
      requires !alt.Unset?
      modifies this
      ensures username == old(username) && token == old(token) && url == old(url)
      ensures var r := Database(config, alt, altDbName, variable);
              && (err.Some? <==> r.Failure?)
              && (err.Some? ==> err.value == r.error)
              && (err.None? ==> db == r.value)
    {
      err := None;
      if alt.Flag? {
        if alt.on {
          if config.altDb.None? {
            return Some(DatabaseNotDefinedError);
          }
          db := config.altDb;
        } else {
          db := config.db;
        }
      } else {
        err := LoadCustomDatabase(alt.rendered, altDbName, variable);
      }
    }
  }

  /** `Credentials(alt_db)`: the new object, or the exception its
      construction raises. */
  method NewCredentials(config: Config, alt: AltDb, altDbName: string, variable: Lookup)
    returns (r: Result<Credentials, PyException>)
    ensures var d := Database(config, alt, altDbName, variable);
            && (r.Failure? <==> d.Failure?)
            && (r.Failure? ==> r.error == d.error)
    ensures r.Success? ==> fresh(r.value)
    ensures r.Success? ==>
              && r.value.username == config.username
              && r.value.token == config.token
              && r.value.url == config.url
              && r.value.db == Database(config, alt, altDbName, variable).value
  {
    var c := new Credentials(config);
    if alt.Unset? {
      c.db := config.db;
    } else {
      var err := c.LoadAlternativeDatabase(config, alt, altDbName, variable);
      if err.Some? {
        return Failure(err.value);
      }
    }
    r := Success(c);
  }
}
