/**
 * The validation rules registered with the JSON-schema validator: the
 * `config_name` rule, the pool profile rule `db#pool` and the `config` rule.
 * Keys that no rule names are allowed.
 */
module Schema {
  import opened Values

  /** A character of the class `[a-z0-9-_]`. */
  predicate IsConfigNameChar(c: char)
  {
    'a' <= c <= 'z' || '0' <= c <= '9' || c == '-' || c == '_'
  }

  /** `config_name`: a string matching `^[a-z0-9-_]{1,}$`. */
  predicate IsConfigName(v: Value)
  {
    v.Str? && |v.s| >= 1 && forall k :: 0 <= k < |v.s| ==> IsConfigNameChar(v.s[k])
  }

  predicate StringField(o: Record, key: string)
  {
    key in o && o[key].Str?
  }

  predicate IntegerField(o: Record, key: string)
  {
    key in o && o[key].Int?
  }

  /** The keys of the pool rule, all of them required. */
  const PoolKeys: seq<string> := ["host", "port", "user", "password", "database", "connectionLimit"]

  /** Every key of the pool rule is present. */
  predicate HasPoolKeys(o: Record)
  {
    "host" in o && "port" in o && "user" in o && "password" in o && "database" in o && "connectionLimit" in o
  }

  /** The pool rule's properties. `port` has `maximum: 65535`; the lower
      bounds of `port` and `connectionLimit` are spelt `minium`, a keyword
      the validator does not know, so neither has one. */
  predicate PoolFields(o: Record)
  {
    StringField(o, "host") &&
    IntegerField(o, "port") && o["port"].i <= 65535 &&
    StringField(o, "user") &&
    StringField(o, "password") &&
    StringField(o, "database") &&
    IntegerField(o, "connectionLimit")
  }

  /** `db#pool`: an object satisfying the pool rule. */
  predicate ValidPoolProfile(v: Value)
  {
    v.Obj? && PoolFields(v.fields)
  }

  /** `config`: a pool profile that also carries a valid `name`. */
  predicate ValidConfig(v: Value)
  {
    v.Obj? && "name" in v.fields && IsConfigName(v.fields["name"]) && PoolFields(v.fields)
  }

  /** A valid pool profile has every pool key. */
  lemma PoolProfileHasAllKeys(v: Value)
    requires ValidPoolProfile(v)
    ensures HasPoolKeys(v.fields)
    ensures forall k :: 0 <= k < |PoolKeys| ==> PoolKeys[k] in v.fields
  {
  }

  /** Every valid config is a valid pool profile. */
  lemma ConfigIsPoolProfile(v: Value)
    requires ValidConfig(v)
    ensures ValidPoolProfile(v)
  {
  }

  /** Negative ports and connection limits pass: the misspelt `minium`
      imposes nothing. */
  lemma NoLowerBounds(host: string, user: string, password: string, database: string, port: int, limit: int)
    requires port <= 65535
    ensures ValidPoolProfile(Obj(map["host" := Str(host), "port" := Int(port), "user" := Str(user),
                                     "password" := Str(password), "database" := Str(database),
                                     "connectionLimit" := Int(limit)]))
  {
  }

  /** A config name holds neither `/` nor `.`, so `<name>.yml` stays inside
      the config folder. */
  lemma ConfigNameIsPlain(v: Value)
    requires IsConfigName(v)
    ensures '/' !in v.s && '.' !in v.s
  {
  }
}
