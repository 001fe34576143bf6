/** `emu/wsgi.py`: the configuration set handed to the request-processing
    engine. The engine itself (`Service`) is not modelled; `CreateApp`
    returns the list it would receive. */
module Wsgi {
  import opened Lists
  import PosixPath

  const DefaultConfigName: string := "default.cfg"

  /** `os.path.join(os.path.dirname(__file__), 'default.cfg')` for the
      module file path `moduleFile`. */
  function DefaultConfigPath(moduleFile: string): (p: string)
    ensures |p| >= |DefaultConfigName| && p[|p| - |DefaultConfigName|..] == DefaultConfigName
  {
    var p := PosixPath.Join(PosixPath.Dirname(moduleFile), DefaultConfigName);
    assert p[|p| - |DefaultConfigName|..] == DefaultConfigName;
    p
  }

  /** For a module `dir/wsgi.py` the default configuration is
      `dir/default.cfg`, beside it in the same package directory. */
  lemma DefaultConfigBesideModule(dir: string, base: string)
    requires dir != [] && dir[|dir| - 1] != '/'
    requires '/' !in base
    ensures DefaultConfigPath(dir + "/" + base) == dir + "/" + DefaultConfigName
  {
    PosixPath.DirnameOfChild(dir, base);
  }

  /** `create_app(cfgfiles)`: a fresh list holding the default
      configuration followed by the caller's paths, in order; the caller's
      list is left as it was. */
  method CreateApp(cfgfiles: MutableList?<string>, moduleFile: string)
    returns (configFiles: MutableList<string>)
    ensures fresh(configFiles)
    ensures cfgfiles != null ==> cfgfiles.items == old(cfgfiles.items)
    ensures |configFiles.items| == 1 + (if cfgfiles == null then 0 else |cfgfiles.items|)
    ensures configFiles.items[0] == DefaultConfigPath(moduleFile)
    ensures cfgfiles != null ==> configFiles.items[1..] == cfgfiles.items
  {
    configFiles := new MutableList([DefaultConfigPath(moduleFile)]);
    if cfgfiles != null && cfgfiles.IsNonEmpty() {
      configFiles.Extend(cfgfiles);
    }
  }

  /** The module-level `application = create_app()`: only the default
      configuration. */
  method Application(moduleFile: string) returns (configFiles: MutableList<string>)
    ensures fresh(configFiles)
    ensures configFiles.items == [DefaultConfigPath(moduleFile)]
  {
    configFiles := CreateApp(null, moduleFile);
  }
}
