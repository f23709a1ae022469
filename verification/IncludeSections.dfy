/** Which sections name includes, on which line, and where a named value leads. */
module IncludeSections {
  import opened Common
  import opened ConfigParser
  import opened IncludeLines
  import opened IncludeRoundTrip

  /**
   * Values under a header are found exactly when the section is spelled `include` or starts with
   * `includeif`, in any letter case; under any other header nothing is.
   */
  lemma {:induction false} SectionDecides(name: Bytes, values: seq<Bytes>, base: Path, home: Option<Path>)
    requires SectionName(name) && forall v :: v in values ==> Renderable(v)
    ensures IncludePaths(FileUnder(name, ValueLines(values)), base, home)
         == if SpellsInclude(Trim(name)) then Resolve(values, base, home) else []
  {
    IncludeInAnyCase(Trim(name));
    NamedByValues(Lower(Trim(name)), values, base, home);
    FileReadsLineByLine(name, ValueLines(values), base, home);
  }

  /** A value on the header's own line is found in the section that header opens. */
  lemma {:induction false} HeaderLineValue(section: Bytes, name: Bytes, v: Bytes, base: Path, home: Option<Path>)
    requires SectionName(name) && Renderable(v)
    ensures Named(section, Header(name) + ValueLine(v), base, home)
         == if SpellsInclude(Trim(name)) then [ExpandConfigPath(v, base, home)] else []
  {
    LineShape(v);
    HeaderOpensSection(section, name, ValueLine(v));
    IncludeInAnyCase(Trim(name));
    ValueLineIsItsOwn(v);
    NamedByLine(Lower(Trim(name)), v, base, home);
  }

  /**
   * An absolute value leads to itself; one under `~/` to the rest of it below a known home; any
   * other below the including file's directory, one separator apart.
   */
  lemma {:induction false} ValueLeads(value: Bytes, base: Path, home: Option<Path>)
    requires value != [] && base != [] && base[|base| - 1] != SLASH
    ensures value[0] == SLASH ==> ExpandConfigPath(value, base, home) == value
    ensures value[0] != SLASH && !(HOME_PREFIX <= value && home.Some?) ==>
              ExpandConfigPath(value, base, home) == base + [SLASH] + value
    ensures HOME_PREFIX <= value && home.Some? && home.value != [] && home.value[|home.value| - 1] != SLASH
            && |value| > 2 && value[2] != SLASH ==>
              ExpandConfigPath(value, base, home) == home.value + value[1..]
  {
    if HOME_PREFIX <= value {
      assert value[1..] == [SLASH] + value[2..];
    }
  }

  /** The including file's directory matters exactly to values that are neither absolute nor below home. */
  lemma {:induction false} DirectoryMattersExactly(value: Bytes, b: Path, c: Path, home: Option<Path>)
    requires value != [] && b != [] && c != [] && b[|b| - 1] != SLASH && c[|c| - 1] != SLASH
    ensures ExpandConfigPath(value, b, home) == ExpandConfigPath(value, c, home)
       <==> b == c || value[0] == SLASH || (HOME_PREFIX <= value && home.Some?)
  {
    if ExpandConfigPath(value, b, home) == ExpandConfigPath(value, c, home) && value[0] != SLASH
       && !(HOME_PREFIX <= value && home.Some?) {
      ValueLeads(value, b, home);
      ValueLeads(value, c, home);
      Associate(b, [SLASH], value);
      Associate(c, [SLASH], value);
      SplitEqual(b, [SLASH] + value, c, [SLASH] + value);
    }
  }
}
