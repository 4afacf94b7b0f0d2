/** The credential record stored in each secret version, its validation, and
    the connection parameters derived from it. */
module Credentials {
  import opened Outcomes

  /** An already-parsed secret payload: JSON keys to their values, as text. */
  type Record = map<string, string>

  const EngineKey: string := "engine"
  const Engine: string := "mariadb"

  /** The fields every credential must carry, in the order they are checked. */
  const RequiredFields: seq<string> := ["host", "username", "password"]

  /** The port used when the payload names none. */
  const DefaultPort: nat := 3306

  predicate IsMariaDB(d: Record) {
    EngineKey in d && d[EngineKey] == Engine
  }

  predicate HasCredentialFields(d: Record) {
    "host" in d && "username" in d && "password" in d
  }

  /** The index of the first of `fields` that `d` lacks, or `|fields|`. */
  function FirstMissing(d: Record, fields: seq<string>): (k: nat)
    ensures k <= |fields|
    ensures forall i :: 0 <= i < k ==> fields[i] in d
    ensures k < |fields| ==> fields[k] !in d
  {
    if fields == [] then 0
    else if fields[0] !in d then 0
    else 1 + FirstMissing(d, fields[1..])
  }

  /** The checks run on every fetched payload: the engine first, then the
      required fields in order; a valid payload is returned unchanged. */
  function ValidateSecretDict(d: Record): (r: Result<Record>)
    ensures r.Ok? <==> IsMariaDB(d) && HasCredentialFields(d)
    ensures r.Ok? ==> r.value == d
    ensures !IsMariaDB(d) ==> r == Err(EngineNotMariaDB)
    ensures IsMariaDB(d) && "host" !in d ==> r == Err(MissingKey("host"))
    ensures IsMariaDB(d) && "host" in d && "username" !in d ==> r == Err(MissingKey("username"))
    ensures IsMariaDB(d) && "host" in d && "username" in d && "password" !in d ==> r == Err(MissingKey("password"))
  {
    if !IsMariaDB(d) then Err(EngineNotMariaDB)
    else
      var k := FirstMissing(d, RequiredFields);
      assert RequiredFields[0] == "host" && RequiredFields[1] == "username" && RequiredFields[2] == "password";
      if k < |RequiredFields| then Err(MissingKey(RequiredFields[k])) else Ok(d)
  }

  predicate IsDigit(c: char) {
    '0' <= c <= '9'
  }

  /** A non-empty run of decimal digits: the port texts that parse. */
  predicate IsDigits(s: string) {
    |s| > 0 && forall i :: 0 <= i < |s| ==> IsDigit(s[i])
  }

  function DigitsValue(s: string): nat
    requires forall i :: 0 <= i < |s| ==> IsDigit(s[i])
    decreases |s|
  {
    if s == [] then 0
    else
      assert IsDigit(s[|s| - 1]);
      10 * DigitsValue(s[..|s| - 1]) + (s[|s| - 1] as int - '0' as int)
  }

  /** `int(text)` for the port: digits parse, anything else is a ValueError. */
  function ParsePort(text: string): (r: Result<int>)
    ensures r.Ok? <==> IsDigits(text)
    ensures r.Err? ==> r.error == InvalidPort
    ensures r.Ok? ==> r.value >= 0
  {
    if IsDigits(text) then Ok(DigitsValue(text)) else Err(InvalidPort)
  }

  function Digit(n: nat): (c: char)
    requires n < 10
    ensures IsDigit(c) && c as int - '0' as int == n
  {
    ('0' as int + n) as char
  }

  /** The decimal text of a number, as a JSON encoder writes a port. */
  function DecimalText(n: nat): (s: string)
    ensures IsDigits(s)
  {
    if n < 10 then [Digit(n)] else DecimalText(n / 10) + [Digit(n % 10)]
  }

  /** Parsing the port reads back exactly the number that was written. */
  lemma {:induction false} PortRoundTrip(n: nat)
    ensures ParsePort(DecimalText(n)) == Ok(n)
  {
    var s := DecimalText(n);
    if n < 10 {
      assert s[..|s| - 1] == [];
    } else {
      PortRoundTrip(n / 10);
      assert s[..|s| - 1] == DecimalText(n / 10);
      assert DigitsValue(s) == 10 * (n / 10) + n % 10;
    }
  }

  /** What a login attempt is made with. */
  datatype ConnParams = ConnParams(host: string, user: string, password: string, port: int, dbname: Option<string>)

  /** The connection parameters of a payload: the port defaults to 3306 and
      must parse, the database name is optional, and host, user and password
      come from the payload. */
  function ConnectionParams(d: Record): (r: Result<ConnParams>)
    ensures "port" in d && !IsDigits(d["port"]) ==> r == Err(InvalidPort)
    ensures r.Ok? <==> ("port" !in d || IsDigits(d["port"])) && HasCredentialFields(d)
    ensures r.Ok? ==> r.value.host == d["host"] && r.value.user == d["username"] && r.value.password == d["password"]
    ensures r.Ok? && "port" !in d ==> r.value.port == DefaultPort
    ensures r.Ok? && "port" in d ==> ParsePort(d["port"]) == Ok(r.value.port)
    ensures r.Ok? ==> (r.value.dbname.Some? <==> "dbname" in d)
    ensures r.Ok? && "dbname" in d ==> r.value.dbname.value == d["dbname"]
  {
    var port := if "port" in d then ParsePort(d["port"]) else Ok(DefaultPort as int);
    if port.Err? then Err(port.error)
    else if "host" !in d then Err(MissingKey("host"))
    else if "username" !in d then Err(MissingKey("username"))
    else if "password" !in d then Err(MissingKey("password"))
    else
      var dbname := if "dbname" in d then Some(d["dbname"]) else None;
      Ok(ConnParams(d["host"], d["username"], d["password"], port.value, dbname))
  }
}
