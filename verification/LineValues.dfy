/** The key and the value that a printed line holds. */
module LineValues {
  import opened Strings
  import opened YamlLines
  import opened BlockStyle

  lemma MapValueIs(info: LineInfo)
    ensures info.MapValue() == if info.HasMapValue() then info.value[info.colonIdx + 2..] else ""
  {
    assert info.value[0..0] == "";
    assert info.value[info.indent - info.indent..0] == "";
  }

  lemma MapValueOfText(l: Line, info: LineInfo)
    requires l.SameText(info)
    ensures l.Info().MapValue() == info.MapValue()
  {
    SameMapValue(l.Info(), info);
  }

  lemma SameMapValue(a: LineInfo, b: LineInfo)
    requires a == b.(key := a.key)
    ensures a.MapValue() == b.MapValue()
  {
    hide LineInfo.MapValue;
    MapValueIs(a);
    MapValueIs(b);
  }

  lemma KeyAndValue(info: LineInfo, key: string, v: string)
    requires info.typ.IsMapping() && info.colonIdx == |key| && info.value == key + ":" + " " + v
    ensures info.ColonInValue() && info.MapKey() == key && info.MapValue() == v
  {
    assert info.value[|key|] == ':';
    assert info.value[..|key|] == key && info.value[|key| + 2..] == v;
    assert info.value[|key| + 2..|info.value|] == v;
    assert info.value[info.indent - info.indent..info.indent + |key| - info.indent] == key;
  }

  /** A line printed as "key: value", with or without a dash, holds just this key and value, whatever the
      value is. */
  lemma WrittenValue(indent: nat, key: string, v: string, dash: bool)
    requires PlainKey(key)
    ensures var text := key + ":" + (" " + v);
            var info := Classify(Spaces(indent) + (if dash then "- " + text else text));
            && info.typ == (if dash then ListMapping else Mapping)
            && info.key == key && info.MapKey() == key && info.MapValue() == v
  {
    hide Classify, OpensBlock, EndsWithHeader, PlainKey, LineInfo.MapKey, LineInfo.MapValue;
    assert key + ":" + (" " + v) == key + ":" + " " + v;
    if dash {
      DashLine(indent, key, " " + v);
      KeyAndValue(Classify(Spaces(indent) + ("- " + (key + ":" + (" " + v)))), key, v);
    } else {
      KeyLine(indent, key, " " + v);
      KeyAndValue(Classify(Spaces(indent) + (key + ":" + (" " + v))), key, v);
    }
  }
}
