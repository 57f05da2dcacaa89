/**
 * A power-supply device as GUdev shows it to the battery driver: its sysfs
 * path, the text of each sysfs attribute, its udev properties, and writes to
 * attribute files whose outcome the kernel decides.
 */
module Sysfs {
  import opened Wrappers
  import opened Strings
  import opened Numbers

  /**
   * `attrs` maps each attribute file that exists to its text (as GUdev
   * returns it, trailing newline removed); `props` holds the udev
   * properties such as CHARGE_LIMIT; `path` is the sysfs path, if known.
   */
  datatype Device = Device(path: Option<string>, attrs: map<string, string>, props: map<string, string>)

  /** g_udev_device_has_sysfs_attr. */
  predicate Has(d: Device, name: string) {
    name in d.attrs
  }

  /** g_udev_device_get_sysfs_attr: the text, or NULL when there is no such attribute. */
  function Attr(d: Device, name: string): (r: Option<string>)
    ensures r.Some? <==> Has(d, name)
  {
    if name in d.attrs then Some(d.attrs[name]) else None
  }

  /** g_udev_device_get_property. */
  function Property(d: Device, name: string): (r: Option<string>)
    ensures r.Some? <==> name in d.props
  {
    if name in d.props then Some(d.props[name]) else None
  }

  /** g_udev_device_get_sysfs_attr_as_double: strtod of the text; 0.0 when absent or not a number. */
  function AttrDouble(d: Device, name: string): (r: Double)
    ensures !Has(d, name) ==> r == Num(0.0)
  {
    if name !in d.attrs then Num(0.0)
    else match Strtod(d.attrs[name])
      case None => Num(0.0)
      case Some(c) => c.value
  }

  /** g_udev_device_get_sysfs_attr_as_int: strtol of the text; 0 when absent or not a number. */
  function AttrInt(d: Device, name: string): (r: int)
    ensures !Has(d, name) ==> r == 0
  {
    if name !in d.attrs then 0
    else match Strtol(d.attrs[name])
      case None => 0
      case Some(c) => c.value
  }

  /** g_udev_device_get_sysfs_attr_as_boolean: true only for "1" or "true" in any case. */
  predicate AttrBool(d: Device, name: string) {
    name in d.attrs && (d.attrs[name] == "1" || EqualsIgnoreCase(d.attrs[name], "true"))
  }

  /** The driver's get_sysfs_attr_uncached: the text with surrounding whitespace removed, NULL when that leaves nothing. */
  function AttrStripped(d: Device, name: string): (r: Option<string>)
    ensures r.Some? ==> Has(d, name) && r.value != [] && !IsSpace(r.value[0])
  {
    if name !in d.attrs then None
    else
      var s := Strip(d.attrs[name]);
      if s == [] then None else Some(s)
  }

  /** An attribute in micro-units (µV, µWh, µAh, µW, µA) read as double and divided by 1 000 000. */
  function Micro(d: Device, name: string): (r: Double)
    ensures !Has(d, name) ==> r == Num(0.0)
  {
    Div(AttrDouble(d, name), 1000000.0)
  }

  /** One attempt to write `content` into the attribute file `attr`, and whether it succeeded. */
  datatype Write = Write(attr: string, content: string, succeeded: bool)

  /**
   * g_file_set_contents_full on an attribute file. sysfs does not let a
   * process create files, so writing to an attribute the device lacks
   * fails; whether an existing attribute takes the text is the kernel's
   * decision, `accepts`.
   */
  function Attempt(d: Device, attr: string, content: string, accepts: (string, string) -> bool): (w: Write)
    ensures w.attr == attr && w.content == content
    ensures w.succeeded <==> Has(d, attr) && accepts(attr, content)
  {
    Write(attr, content, Has(d, attr) && accepts(attr, content))
  }
}
