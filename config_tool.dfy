/**
 * The configuration getters of get_excel_data_curr/ConfigTool.py: lookups in
 * the `system_config` table (a key -> value store) with fixed fallbacks.
 *
 * JSON decoding is a parameter `parse` (None for text that is not valid
 * JSON); the values it yields are string-to-string dictionaries, the only
 * JSON values the getters are used for.
 */
module ConfigTool {
  import opened Wrappers
  import opened Strings

  type Store = map<string, string>
  type Dict = map<string, string>

  /** `_get(key, default)`: the stored value, else the default. */
  function Get(store: Store, key: string, default: string): (v: string)
    ensures key in store ==> v == store[key]
    ensures key !in store ==> v == default
  {
    if key in store then store[key] else default
  }

  /** `_get_json(key, default)`: the parsed value, else the default, else `{}`. */
  function GetJson(store: Store, key: string, default: Option<Dict>, parse: string -> Option<Dict>): (d: Dict)
    ensures key in store && parse(store[key]).Some? ==> d == parse(store[key]).value
    ensures key !in store || parse(store[key]).None? ==> d == default.GetOr(map[])
  {
    if key !in store then default.GetOr(map[])
    else match parse(store[key])
      case Some(v) => v
      case None => default.GetOr(map[])
  }

  function Username(store: Store): string { Get(store, "tust_username", "") }
  function Password(store: Store): string { Get(store, "tust_password", "") }
  function BeginTime(store: Store): string { Get(store, "begin_time", "23:20:00") }
  function EndTime(store: Store): string { Get(store, "end_time", "05:30:00") }
  function Flag(store: Store): string { Get(store, "flag", "") }
  function Env(store: Store): string { Get(store, "env", "test") }
  function DataCfg(store: Store, parse: string -> Option<Dict>): Dict { GetJson(store, "data_cfg", Some(map[]), parse) }
  function BidDict(store: Store, parse: string -> Option<Dict>): Dict { GetJson(store, "bid_dict", Some(map[]), parse) }

  /** `get_pagesize`: `int(value)`, and 20 when the key is missing or the value is not an integer. */
  function PageSize(store: Store): (n: int)
    ensures "pagesize" !in store ==> n == 20
    ensures "pagesize" in store && PyInt(store["pagesize"]).None? ==> n == 20
    ensures "pagesize" in store && PyInt(store["pagesize"]).Some? ==> n == PyInt(store["pagesize"]).value
  {
    PyIntOfIntToString(20);
    assert IntToString(20) == "20";
    match PyInt(Get(store, "pagesize", "20"))
      case Some(n) => n
      case None => 20
  }

  /** `get_driver_location`: the production path exactly when `env` is `prod`. */
  function DriverLocation(store: Store): string {
    if Env(store) == "prod" then Get(store, "chromedriver_path_prod", "") else Get(store, "chromedriver_path", "")
  }

  /** `get_binary_location`: the same switch over the browser paths. */
  function BinaryLocation(store: Store): string {
    if Env(store) == "prod" then Get(store, "chrome_binary_path_prod", "") else Get(store, "chrome_binary_path", "")
  }

  // -------------------------------------------------------------- properties

  /** A page size stored as the decimal text of n reads back as n. */
  lemma PageSizeOfNumber(store: Store, n: int)
    requires "pagesize" in store && store["pagesize"] == IntToString(n)
    ensures PageSize(store) == n
  {
    PyIntOfIntToString(n);
  }

  /** Stored padding around the number is ignored, as by `int()`. */
  lemma PageSizeOfPaddedNumber(store: Store, n: int)
    requires "pagesize" in store && store["pagesize"] == " " + IntToString(n) + "\n"
    ensures PageSize(store) == n
  {
    var d := IntToString(n);
    IntToStringHasNoSpace(n);
    TrimLeftRemovesSpace(store["pagesize"]);
    assert TrimLeft(" " + d + "\n") == d + "\n";
    TrimRightRemovesSpace(d + "\n");
    assert Strip(store["pagesize"]) == d;
    PyIntOfIntToString(n);
  }

  /** An empty store gives the documented defaults. */
  lemma Defaults()
    ensures Username(map[]) == "" && Password(map[]) == ""
    ensures BeginTime(map[]) == "23:20:00" && EndTime(map[]) == "05:30:00"
    ensures Flag(map[]) == "" && Env(map[]) == "test" && PageSize(map[]) == 20
  {
  }

  /**
   * The driver and browser paths come from the `_prod` keys exactly when
   * `env` is `prod`, so with no `env` the test paths are used; both fall back
   * to the empty string.
   */
  lemma LocationsFollowEnv(store: Store)
    ensures DriverLocation(store) == Get(store, if Env(store) == "prod" then "chromedriver_path_prod" else "chromedriver_path", "")
    ensures BinaryLocation(store) == Get(store, if Env(store) == "prod" then "chrome_binary_path_prod" else "chrome_binary_path", "")
    ensures "env" !in store ==> DriverLocation(store) == Get(store, "chromedriver_path", "")
    ensures "env" !in store ==> BinaryLocation(store) == Get(store, "chrome_binary_path", "")
  {
  }

  /** Text that is not valid JSON reads as the default, so the mapping getters never fail. */
  lemma JsonFallback(store: Store, key: string, parse: string -> Option<Dict>)
    requires key in store && parse(store[key]).None?
    ensures GetJson(store, key, None, parse) == map[]
    ensures DataCfg(store, parse) == (if "data_cfg" in store && parse(store["data_cfg"]).Some? then parse(store["data_cfg"]).value else map[])
  {
  }

  // ------------------------------------------------------------------ finding

  /** What `ConfigTool(...)` is given: the configuration table, or (at get_excel_data_curr/main.py:16) a path. */
  datatype Backing = Table(store: Store) | PathText(path: string)

  /** `AttributeError`: a `str` has no `get_config`. */
  datatype LookupError = NoGetConfig

  /** `_get` as written: `self.db.get_config(key, default)` on whatever the tool was built with. */
  function LookupAsWritten(b: Backing, key: string, default: string): (r: Result<string, LookupError>)
    ensures r.Ok? <==> b.Table?
  {
    match b
      case Table(store) => Ok(Get(store, key, default))
      case PathText(_) => Err(NoGetConfig)
  }

  /**
   * The module-level tool of main.py is built from a path, so its first
   * lookup (`get_username`, main.py:19) fails whatever the key; built from the
   * table, as the constructor expects, every lookup is the table lookup.
   */
  lemma MainConfigToolFails(key: string, default: string)
    ensures LookupAsWritten(PathText("./get_excel_data_curr/config.json"), key, default) == Err(NoGetConfig)
    ensures forall store: Store :: LookupAsWritten(Table(store), key, default) == Ok(Get(store, key, default))
  {
  }
}
