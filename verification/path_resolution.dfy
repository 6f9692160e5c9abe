/** How a panel type or a request is turned into a resource path: `GetPath`,
    `DefaultPanelPathFormat` and `ResolvePath`. */
module PathResolution {
  import opened UITypes

  /** A panel class: its name and the path of its `BindUIPath` attribute, which is
      `None` when the class has no attribute or the attribute's path is null. */
  datatype PanelType = PanelType(name: string, bindPath: Option<string>)

  /** The format used when the settings give none, or only white space. */
  const FallbackFormat: string := "UI/{0}"

  /** `DefaultPanelPathFormat`. */
  function PathFormatOf(settings: Option<Settings>): (f: string)
    ensures settings.Some? && !IsBlank(settings.value.panelPathFormat) ==> f == settings.value.panelPathFormat.value
    ensures f == FallbackFormat || !IsBlank(Some(f))
  {
    if settings.None? || IsBlank(settings.value.panelPathFormat) then FallbackFormat
    else settings.value.panelPathFormat.value
  }

  /** `string.Format(format, name)` for a format whose only format item is `{0}`:
      every `{0}` is replaced by `name`, everything else is copied. */
  function FormatPath(format: string, name: string): string
  {
    if |format| == 0 then ""
    else if |format| >= 3 && format[0] == '{' && format[1] == '0' && format[2] == '}' then
      name + FormatPath(format[3..], name)
    else [format[0]] + FormatPath(format[1..], name)
  }

  /** With the fallback format a panel's path is `UI/` followed by its class name. */
  lemma FallbackFormatPath(name: string)
    ensures FormatPath(FallbackFormat, name) == "UI/" + name
  {
    calc {
      FormatPath(FallbackFormat, name);
      "U" + FormatPath("I/{0}", name);
      "UI" + FormatPath("/{0}", name);
      "UI/" + FormatPath("{0}", name);
      "UI/" + name + FormatPath("", name);
    }
  }

  /** `GetPath(Type)`: the bound path when it is not blank, otherwise the class
      name put into the path format. */
  function GetPath(t: PanelType, format: string): (p: string)
    ensures !IsBlank(t.bindPath) ==> p == t.bindPath.value
    ensures IsBlank(t.bindPath) && format == FallbackFormat ==> p == "UI/" + t.name
  {
    FallbackFormatPath(t.name);
    if !IsBlank(t.bindPath) then t.bindPath.value else FormatPath(format, t.name)
  }

  /** `ResolvePath`: an explicit path that is not blank wins; otherwise the path of
      the panel type, when there is one; otherwise null. */
  function ResolvePath(path: Option<string>, panelType: Option<PanelType>, format: string): (r: Option<string>)
    ensures !IsBlank(path) ==> r == path
    ensures IsBlank(path) && panelType.None? ==> r.None?
    ensures IsBlank(path) && panelType.Some? ==> r == Some(GetPath(panelType.value, format))
  {
    if !IsBlank(path) then path
    else if panelType.Some? then Some(GetPath(panelType.value, format))
    else None
  }

  /** With the fallback format, a request that names a path or a type always
      resolves to a path that is not blank, and resolving that path again gives it
      back. */
  lemma ResolvedPathIsUsable(path: Option<string>, panelType: Option<PanelType>, other: Option<PanelType>)
    requires !IsBlank(path) || panelType.Some?
    ensures var r := ResolvePath(path, panelType, FallbackFormat);
      r.Some? && !IsBlank(r) && ResolvePath(r, other, FallbackFormat) == r
  {
    var r := ResolvePath(path, panelType, FallbackFormat);
    if IsBlank(path) && IsBlank(panelType.value.bindPath) {
      assert r.value[0] == 'U';
    }
  }
}
