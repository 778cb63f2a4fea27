/**
 * The plugin-setting cache held in `$this->config`, as pure functions over the
 * loaded map of setting names to values. A property that is unset and a
 * property set to null are the same to `isset`, so the map holds only the
 * names that have a (string) value.
 */
module ConfigCache {
  import opened Php

  /** get_config($name, $default) once the cache is loaded: `isset` ? value : default. */
  function Lookup(cfg: map<string, string>, name: string, default: Cell): Cell {
    if name in cfg then Some(cfg[name]) else default
  }

  /**
   * The cache half of set_config($name, $value): null unsets the name, any
   * other value replaces it. Reading the name back gives the value, or the
   * caller's default after a null; every other name reads as before.
   */
  function Set(cfg: map<string, string>, name: string, value: Cell): (r: map<string, string>)
    ensures forall d :: Lookup(r, name, d) == (if value.None? then d else value)
    ensures forall n, d :: n != name ==> Lookup(r, n, d) == Lookup(cfg, n, d)
    ensures r.Keys == if value.None? then cfg.Keys - {name} else cfg.Keys + {name}
  {
    if value.None? then cfg - {name} else cfg[name := value.value]
  }
}
