/** The minimal CloudFormation template builder of cfngen/dsl.py: a `Template`
    keeps, per section name, the list of `Element`s added to it; an `Element`
    keeps the list of `(name, value)` properties added to it; `ToTemplate`
    renders both into nested dictionaries, later duplicates overwriting
    earlier ones. Dictionaries are `map`s, lists are `seq`s, and the objects
    stay objects, so an element added to a template and extended afterwards is
    rendered with its new properties, as in the source. */
module CfnGenDsl {

  const VersionKey := "AWSTemplateFormatVersion"
  const DescriptionKey := "Description"
  const DefaultVersion := "2010-09-09"

  /** A value of the rendered template: a header string, or a section mapping
      element names to their property dictionaries. */
  datatype Node<V> = Text(text: string) | Section(entries: map<string, map<string, V>>)

  // ---------------------------------------------------------------------------
  // Filling a dictionary from a list of pairs
  // ---------------------------------------------------------------------------

  /** The dictionary a loop `d[k] = v` over `pairs` builds from `{}`. */
  function LastWins<K, V>(pairs: seq<(K, V)>): (m: map<K, V>)
    ensures m.Keys == set p | p in pairs :: p.0
  {
    if |pairs| == 0 then map[]
    else
      var init := pairs[..|pairs| - 1];
      assert pairs == init + [pairs[|pairs| - 1]];
      LastWins(init)[pairs[|pairs| - 1].0 := pairs[|pairs| - 1].1]
  }

  /** A key maps to the value of its last occurrence. */
  lemma {:induction false} LastWinsAt<K, V>(pairs: seq<(K, V)>, i: nat)
    requires i < |pairs|
    requires forall j :: i < j < |pairs| ==> pairs[j].0 != pairs[i].0
    ensures pairs[i].0 in LastWins(pairs) && LastWins(pairs)[pairs[i].0] == pairs[i].1
  {
    if i < |pairs| - 1 {
      var init := pairs[..|pairs| - 1];
      assert forall j :: i < j < |init| ==> init[j] == pairs[j];
      LastWinsAt(init, i);
    }
  }

  /** Appending pairs that do not mention a key leaves its entry alone. */
  lemma {:induction false} LastWinsOther<K, V>(pairs: seq<(K, V)>, more: seq<(K, V)>, k: K)
    requires forall j :: 0 <= j < |more| ==> more[j].0 != k
    ensures k in LastWins(pairs + more) <==> k in LastWins(pairs)
    ensures k in LastWins(pairs) ==> LastWins(pairs + more)[k] == LastWins(pairs)[k]
    decreases |more|
  {
    if |more| == 0 {
      assert pairs + more == pairs;
    } else {
      var init := more[..|more| - 1];
      assert (pairs + more)[..|pairs + more| - 1] == pairs + init;
      LastWinsOther(pairs, init, k);
    }
  }

  // ---------------------------------------------------------------------------
  // Element
  // ---------------------------------------------------------------------------

  class Element<V> {
    const name: string
    var props: seq<(string, V)>

    constructor (name: string)
      ensures this.name == name && props == []
    {
      this.name := name;
      props := [];
    }

    /** The property dictionary this element renders to. */
    function Properties(): map<string, V>
      reads this
    {
      LastWins(props)
    }

    /** Appends one property, keeping duplicates, and returns the element itself. */
    method AddProperty(name: string, value: V) returns (self: Element<V>)
      modifies this
      ensures self == this
      ensures props == old(props) + [(name, value)]
    {
      props := props + [(name, value)];
      self := this;
    }

    /** Writes this element's dictionary under its name into `template`; the
        Python dictionary filled in place is passed in and returned. */
    method ToTemplate(template: map<string, map<string, V>>) returns (result: map<string, map<string, V>>)
      ensures result == template[name := Properties()]
    {
      var element: map<string, V> := map[];
      for i := 0 to |props|
        invariant element == LastWins(props[..i])
      {
        assert props[..i + 1][..i] == props[..i];
        element := element[props[i].0 := props[i].1];
      }
      assert props[..|props|] == props;
      result := template[name := element];
    }
  }

  // ---------------------------------------------------------------------------
  // Rendering a section
  // ---------------------------------------------------------------------------

  /** The dictionary a section's element list renders to: each element writes
      its whole property dictionary under its name, replacing an earlier one. */
  function SectionDict<V>(es: seq<Element<V>>): (m: map<string, map<string, V>>)
    reads es
    ensures m.Keys == set e | e in es :: e.name
  {
    if |es| == 0 then map[]
    else
      var init := es[..|es| - 1];
      assert es == init + [es[|es| - 1]];
      SectionDict(init)[es[|es| - 1].name := es[|es| - 1].Properties()]
  }

  /** Within a section, a name renders to the properties of the last element
      carrying it, whole: earlier elements of the same name are not merged in. */
  lemma {:induction false} SectionDictAt<V>(es: seq<Element<V>>, i: nat)
    requires i < |es|
    requires forall j :: i < j < |es| ==> es[j].name != es[i].name
    ensures es[i].name in SectionDict(es) && SectionDict(es)[es[i].name] == es[i].Properties()
  {
    if i < |es| - 1 {
      var init := es[..|es| - 1];
      assert forall j :: i < j < |init| ==> init[j] == es[j];
      SectionDictAt(init, i);
    }
  }

  /** The inner loop of `Template.to_template`: every element of a section
      writes itself into the section's dictionary, in list order. */
  method RenderSection<V>(entries: seq<Element<V>>) returns (section: map<string, map<string, V>>)
    ensures section == SectionDict(entries)
  {
    section := map[];
    for j := 0 to |entries|
      invariant section == SectionDict(entries[..j])
    {
      assert entries[..j + 1][..j] == entries[..j];
      section := entries[j].ToTemplate(section);
    }
    assert entries[..|entries|] == entries;
  }

  /** Every element held in some section. */
  ghost function ElementsOf<V>(lists: map<string, seq<Element<V>>>): (fp: set<Element<V>>)
    ensures forall s, e :: s in lists && e in lists[s] ==> e in fp
  {
    set s, e | s in lists && e in lists[s] :: e
  }

  /** Each section rendered to its dictionary of elements. */
  function SectionsOf<V>(lists: map<string, seq<Element<V>>>): map<string, Node<V>>
    reads ElementsOf(lists)
  {
    map s | s in lists :: Section(SectionDict(lists[s]))
  }

  /** The outer loop of `Template.to_template`: each section, visited in no
      particular order, is rendered into a fresh dictionary. */
  method RenderSections<V>(lists: map<string, seq<Element<V>>>) returns (rendered: map<string, Node<V>>)
    ensures rendered == SectionsOf(lists)
  {
    ghost var sections := SectionsOf(lists);
    rendered := map[];
    var remaining := lists.Keys;
    while remaining != {}
      invariant remaining <= lists.Keys
      invariant rendered.Keys == lists.Keys - remaining
      invariant forall s :: s in rendered ==> rendered[s] == sections[s]
      decreases remaining
    {
      var name :| name in remaining;
      var section := RenderSection(lists[name]);
      assert Section(section) == sections[name];
      rendered := rendered[name := Section(section)];
      remaining := remaining - {name};
    }
  }

  /** Appending an element renders it under its name, whole, and leaves the
      other names of the section as they were. */
  lemma {:induction false} SectionDictSnoc<V>(es: seq<Element<V>>, e: Element<V>)
    ensures e.name in SectionDict(es + [e]) && SectionDict(es + [e])[e.name] == e.Properties()
    ensures forall n :: n != e.name ==> (n in SectionDict(es + [e]) <==> n in SectionDict(es))
    ensures forall n :: n != e.name && n in SectionDict(es) ==> SectionDict(es + [e])[n] == SectionDict(es)[n]
  {
    assert (es + [e])[..|es|] == es;
  }

  /** The section map after `get_section(name)`. */
  function WithSection<V>(elements: map<string, seq<Element<V>>>, name: string): map<string, seq<Element<V>>>
  {
    if name in elements then elements else elements[name := []]
  }

  /** The section map after appending `e` to section `name`. */
  function Appended<V>(elements: map<string, seq<Element<V>>>, name: string, e: Element<V>): (r: map<string, seq<Element<V>>>)
    ensures r.Keys == elements.Keys + {name}
    ensures forall s :: s in elements && s != name ==> r[s] == elements[s]
    ensures name in elements ==> r[name] == elements[name] + [e]
    ensures name !in elements ==> r[name] == [e]
  {
    var s := WithSection(elements, name);
    s[name := s[name] + [e]]
  }

  /** An element appended to a section is rendered in that section under its
      name with its whole property dictionary. */
  lemma AppendedRendersElement<V>(elements: map<string, seq<Element<V>>>, name: string, e: Element<V>)
    ensures name in Appended(elements, name, e)
    ensures e.name in SectionDict(Appended(elements, name, e)[name])
    ensures SectionDict(Appended(elements, name, e)[name])[e.name] == e.Properties()
  {
    if name in elements {
      SectionDictSnoc(elements[name], e);
    } else {
      SectionDictSnoc([], e);
      assert [] + [e] == [e];
    }
  }

  /** `get_section` has no further effect once the section exists. */
  lemma WithSectionIdempotent<V>(elements: map<string, seq<Element<V>>>, name: string)
    ensures name in WithSection(elements, name)
    ensures WithSection(WithSection(elements, name), name) == WithSection(elements, name)
    ensures WithSection(elements, name).Keys == elements.Keys + {name}
    ensures forall s :: s in elements ==> WithSection(elements, name)[s] == elements[s]
  {
  }

  // ---------------------------------------------------------------------------
  // Template
  // ---------------------------------------------------------------------------

  class Template<V> {
    var version: string
    var description: string
    var elements: map<string, seq<Element<V>>>

    constructor (version: string := DefaultVersion, description: string := "")
      ensures this.version == version && this.description == description
      ensures elements == map[]
    {
      this.version := version;
      this.description := description;
      elements := map[];
    }

    /** The two header entries every rendered template starts from. */
    function Header(): map<string, Node<V>>
      reads this
    {
      map[VersionKey := Text(version), DescriptionKey := Text(description)]
    }

    /** The dictionary `to_template` returns: the header, then one entry per
        section, a section named like a header key replacing that entry. */
    function Document(): (doc: map<string, Node<V>>)
      reads this, ElementsOf(elements)
      ensures doc.Keys == elements.Keys + {VersionKey, DescriptionKey}
      ensures forall s :: s in elements ==> doc[s] == Section(SectionDict(elements[s]))
      ensures VersionKey !in elements ==> doc[VersionKey] == Text(version)
      ensures DescriptionKey !in elements ==> doc[DescriptionKey] == Text(description)
    {
      Header() + SectionsOf(elements)
    }

    /** Makes sure section `name` exists, creating it empty if absent, and returns its list. */
    method GetSection(name: string) returns (section: seq<Element<V>>)
      modifies this
      ensures version == old(version) && description == old(description)
      ensures elements == WithSection(old(elements), name)
      ensures section == elements[name]
      ensures name in old(elements) ==> elements == old(elements)
    {
      if name !in elements {
        elements := elements[name := []];
      }
      section := elements[name];
    }

    method AddParameter(element: Element<V>) returns (self: Template<V>)
      modifies this
      ensures self == this
      ensures version == old(version) && description == old(description)
      ensures elements == Appended(old(elements), "Parameters", element)
    {
      var section := GetSection("Parameters");
      elements := elements["Parameters" := section + [element]];
      self := this;
    }

    method AddMappings(element: Element<V>) returns (self: Template<V>)
      modifies this
      ensures self == this
      ensures version == old(version) && description == old(description)
      ensures elements == Appended(old(elements), "Mappings", element)
    {
      var section := GetSection("Mappings");
      elements := elements["Mappings" := section + [element]];
      self := this;
    }

    method AddResources(element: Element<V>) returns (self: Template<V>)
      modifies this
      ensures self == this
      ensures version == old(version) && description == old(description)
      ensures elements == Appended(old(elements), "Resources", element)
    {
      var section := GetSection("Resources");
      elements := elements["Resources" := section + [element]];
      self := this;
    }

    method AddOutputs(element: Element<V>) returns (self: Template<V>)
      modifies this
      ensures self == this
      ensures version == old(version) && description == old(description)
      ensures elements == Appended(old(elements), "Outputs", element)
    {
      var section := GetSection("Outputs");
      elements := elements["Outputs" := section + [element]];
      self := this;
    }

    /** Renders the template; it changes no object. */
    method ToTemplate() returns (template: map<string, Node<V>>)
      ensures template == Document()
    {
      template := map[VersionKey := Text(version), DescriptionKey := Text(description)];
      var sections := RenderSections(elements);
      template := template + sections;
    }
  }

  // ---------------------------------------------------------------------------
  // The sample script at the end of cfngen/dsl.py
  // ---------------------------------------------------------------------------

  lemma SectionDictPair<V>(e1: Element<V>, e2: Element<V>)
    ensures SectionDict([e1, e2]) == map[e1.name := e1.Properties(), e2.name := e2.Properties()]
  {
    assert [e1, e2][..1] == [e1];
    assert [e1][..0] == [];
  }

  lemma LastWinsPair<K, V>(p1: (K, V), p2: (K, V))
    ensures LastWins([p1, p2]) == map[p1.0 := p1.1, p2.0 := p2.1]
  {
    assert [p1, p2][..1] == [p1];
    assert [p1][..0] == [];
  }

  lemma LastWinsTriple<K, V>(p1: (K, V), p2: (K, V), p3: (K, V))
    ensures LastWins([p1, p2, p3]) == map[p1.0 := p1.1, p2.0 := p2.1, p3.0 := p3.1]
  {
    assert [p1, p2, p3][..2] == [p1, p2];
    LastWinsPair(p1, p2);
  }

  const KeyNameDescription := "Name of an existing EC2 KeyPair to enable SSH access to the bastion server"

  /** The `Parameters` section of the sample: each element's properties, last write wins. */
  lemma SampleParameters(keyName: Element<string>, instanceType: Element<string>)
    requires keyName.name == "KeyName" && keyName.props == [("Description", KeyNameDescription), ("Type", "String")]
    requires instanceType.name == "InstanceType"
    requires instanceType.props == [("Description", "EC2 instance type"), ("Type", "String"), ("Default", "t1.micro")]
    ensures SectionDict([keyName, instanceType]) == map[
      "KeyName" := map["Description" := KeyNameDescription, "Type" := "String"],
      "InstanceType" := map["Description" := "EC2 instance type", "Type" := "String", "Default" := "t1.micro"]]
  {
    SectionDictPair(keyName, instanceType);
    LastWinsPair(keyName.props[0], keyName.props[1]);
    LastWinsTriple(instanceType.props[0], instanceType.props[1], instanceType.props[2]);
  }

  /** The sample's rendered document, for a template holding the two sample
      parameters and no other section. */
  lemma SampleDocument(t: Template<string>, keyName: Element<string>, instanceType: Element<string>)
    requires t.version == DefaultVersion && t.description == "Sample Template"
    requires t.elements == map["Parameters" := [keyName, instanceType]]
    requires keyName.name == "KeyName" && keyName.props == [("Description", KeyNameDescription), ("Type", "String")]
    requires instanceType.name == "InstanceType"
    requires instanceType.props == [("Description", "EC2 instance type"), ("Type", "String"), ("Default", "t1.micro")]
    ensures t.Document() == map[
      VersionKey := Text(DefaultVersion),
      DescriptionKey := Text("Sample Template"),
      "Parameters" := Section(map[
        "KeyName" := map["Description" := KeyNameDescription, "Type" := "String"],
        "InstanceType" := map["Description" := "EC2 instance type", "Type" := "String", "Default" := "t1.micro"]])]
  {
    SampleParameters(keyName, instanceType);
    var parameters := map[
      "KeyName" := map["Description" := KeyNameDescription, "Type" := "String"],
      "InstanceType" := map["Description" := "EC2 instance type", "Type" := "String", "Default" := "t1.micro"]];
    assert SectionsOf(t.elements) == map["Parameters" := Section(parameters)];
    MergeOne(VersionKey, DescriptionKey, "Parameters", Text(DefaultVersion), Text("Sample Template"), Section(parameters));
  }

  lemma MergeOne<K, W>(a: K, b: K, c: K, x: W, y: W, z: W)
    ensures map[a := x, b := y] + map[c := z] == map[a := x, b := y, c := z]
  {
  }

  /** `Element('KeyName')` with its two properties. */
  method SampleKeyName() returns (e: Element<string>)
    ensures fresh(e)
    ensures e.name == "KeyName" && e.props == [("Description", KeyNameDescription), ("Type", "String")]
  {
    e := new Element("KeyName");
    e := e.AddProperty("Description", KeyNameDescription);
    e := e.AddProperty("Type", "String");
  }

  /** `Element('InstanceType')` with its three properties. */
  method SampleInstanceType() returns (e: Element<string>)
    ensures fresh(e)
    ensures e.name == "InstanceType"
    ensures e.props == [("Description", "EC2 instance type"), ("Type", "String"), ("Default", "t1.micro")]
  {
    e := new Element("InstanceType");
    e := e.AddProperty("Description", "EC2 instance type");
    e := e.AddProperty("Type", "String");
    e := e.AddProperty("Default", "t1.micro");
  }

  /** Builds the two-parameter sample template and renders it; printing it is left out. */
  method SampleTemplate() returns (doc: map<string, Node<string>>)
    ensures doc == map[
      VersionKey := Text(DefaultVersion),
      DescriptionKey := Text("Sample Template"),
      "Parameters" := Section(map[
        "KeyName" := map["Description" := KeyNameDescription, "Type" := "String"],
        "InstanceType" := map["Description" := "EC2 instance type", "Type" := "String", "Default" := "t1.micro"]])]
  {
    var t := new Template(description := "Sample Template");
    var keyName := SampleKeyName();
    t := t.AddParameter(keyName);
    assert t.elements == map["Parameters" := [keyName]];
    var instanceType := SampleInstanceType();
    t := t.AddParameter(instanceType);
    assert t.elements == map["Parameters" := [keyName, instanceType]] by {
      assert [keyName] + [instanceType] == [keyName, instanceType];
    }
    doc := t.ToTemplate();
    SampleDocument(t, keyName, instanceType);
  }
}
