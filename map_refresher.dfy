/** The rebuild the extension runs on start-up, on its refresh command and
    when watched files appear or disappear: a forced re-read of the
    namespace map, then the element, cell and asset indexes in that order. */
module MapRefresher {
  import opened Text
  import opened Dicts
  import opened FileSystem
  import opened PluginUtils
  import opened Autoload
  import opened FileUtils
  import opened SearchUtils
  import ElementMapper
  import CellMapper
  import AssetMapper

  /** The namespace cache after `parseAutoloadPsr4(workspaceFolder, true)`: a
      readable autoloader replaces it, otherwise the old cache stays. */
  function RefreshedCache(cache: Option<NsMap>, root: string, file: AutoloadFile): Option<NsMap> {
    match AutoloadBody(file)
    case Some(body) => Some(NamespaceEntries(root, Entries(body)))
    case None => cache
  }

  /** The plugin map every indexer of the rebuild is given. */
  function RebuildPluginMap(cache: Option<NsMap>, root: string, file: AutoloadFile): (m: NsMap)
    requires cache.Some? ==> Valid(cache.value)
    ensures Valid(m)
    ensures AutoloadBody(file).Some? ==> m == NamespaceEntries(root, Entries(AutoloadBody(file).value))
    ensures AutoloadBody(file).None? && cache.Some? ==> m == cache.value
    ensures AutoloadBody(file).None? && cache.None? ==> m == Empty()
  {
    Loaded(RefreshedCache(cache, root, file))
  }

  /** `generateMaps(workspaceFolder)`. `ok` is false when one of the scans
      threw; the indexes after it are then not rebuilt. */
  method GenerateMaps(resolver: Resolver, elements: ElementMapper.ElementIndex, cells: CellMapper.CellIndex,
                      assets: AssetMapper.AssetIndex, fs: Node, root: string, autoload: AutoloadFile)
    returns (ok: bool)
    requires resolver.CacheValid()
    modifies resolver, elements, cells, assets
    ensures resolver.CacheValid()
    ensures resolver.namespaceMap == RefreshedCache(old(resolver.namespaceMap), root, autoload)
    ensures var pm := RebuildPluginMap(old(resolver.namespaceMap), root, autoload);
      var e := RunSteps(Empty(), ElementMapper.ElementPlan(fs, root, pm), ElementMapper.ElementScan);
      var c := RunSteps(Empty(), CellMapper.CellPlan(fs, root, pm), CellMapper.CellScan);
      var a := RunSteps(AssetMapper.AssetMaps(Empty(), Empty()), AssetMapper.AssetPlan(fs, root, pm), AssetMapper.AssetScan);
      elements.elementMap == e.0 &&
      (!e.1 ==> !ok && unchanged(cells) && unchanged(assets)) &&
      (e.1 ==> cells.cellMap == c.0) &&
      (e.1 && !c.1 ==> !ok && unchanged(assets)) &&
      (e.1 && c.1 ==> AssetMapper.AssetMaps(assets.jsMap, assets.cssMap) == a.0 && ok == a.1)
  {
    var _ := resolver.ParseAutoloadPsr4(root, autoload, true);
    ghost var pm := RebuildPluginMap(old(resolver.namespaceMap), root, autoload);
    ok := ScanAll(resolver, elements, cells, assets, fs, root, autoload, pm);
  }

  /** The three scans after the forced re-read, each given the cached
      namespace map. */
  method ScanAll(resolver: Resolver, elements: ElementMapper.ElementIndex, cells: CellMapper.CellIndex,
                 assets: AssetMapper.AssetIndex, fs: Node, root: string, autoload: AutoloadFile, ghost pm: NsMap)
    returns (ok: bool)
    requires resolver.CacheValid()
    requires resolver.namespaceMap.None? ==> AutoloadBody(autoload).None?
    requires pm == Loaded(resolver.namespaceMap)
    modifies resolver, elements, cells, assets
    ensures resolver.namespaceMap == old(resolver.namespaceMap)
    ensures var e := RunSteps(Empty(), ElementMapper.ElementPlan(fs, root, pm), ElementMapper.ElementScan);
      var c := RunSteps(Empty(), CellMapper.CellPlan(fs, root, pm), CellMapper.CellScan);
      var a := RunSteps(AssetMapper.AssetMaps(Empty(), Empty()), AssetMapper.AssetPlan(fs, root, pm), AssetMapper.AssetScan);
      elements.elementMap == e.0 &&
      (!e.1 ==> !ok && unchanged(cells) && unchanged(assets)) &&
      (e.1 ==> cells.cellMap == c.0) &&
      (e.1 && !c.1 ==> !ok && unchanged(assets)) &&
      (e.1 && c.1 ==> AssetMapper.AssetMaps(assets.jsMap, assets.cssMap) == a.0 && ok == a.1)
  {
    var pluginMap := resolver.ParseAutoloadPsr4(root, autoload, false);
    ok := elements.GenerateElementMap(fs, root, pluginMap);
    if !ok {
      return;
    }
    pluginMap := resolver.ParseAutoloadPsr4(root, autoload, false);
    ok := cells.GenerateCellMap(fs, root, pluginMap);
    if !ok {
      return;
    }
    pluginMap := resolver.ParseAutoloadPsr4(root, autoload, false);
    ok := assets.GenerateAssetMaps(fs, root, pluginMap);
  }
}
