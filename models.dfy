/** The parsed tree: components own their properties and child components.
    Every sequence holds the list as stored, head first, which is the reverse
    of the order of appearance because the lists only ever prepend. */
module Models {
  import opened Util

  /** A parameter with its list of values (struct param). */
  datatype Param = Param(name: string, values: seq<string>)

  /** A property. `param` is the raw parameter text that src/cical.c keeps;
      `params` is the parameter list of include/cical_models.h that the
      Markdown printer walks. Either may be absent in a given property. */
  datatype Property = Property(name: string, param: Option<string>, params: seq<Param>, value: Option<string>)

  /** A component: its name, its property list and its child list. */
  datatype Component = Component(name: string, props: seq<Property>, comps: seq<Component>)
}
