/**
 * The fixed table of license header templates, keyed by license name.
 * Each template is a block of '#' comment lines, every one ending in '\n'.
 */
module Registry {

  /** GPL version 2 "or (at your option) any later version". */
  const GplV2Later: string :=
    "# This program is free software; you can redistribute it and/or modify\n" +
    "# it under the terms of the GNU General Public License as published by\n" +
    "# the Free Software Foundation; either version 2 of the License, or\n" +
    "# (at your option) any later version.\n" +
    "#\n" +
    "# This program is distributed in the hope that it will be useful,\n" +
    "# but WITHOUT ANY WARRANTY; without even the implied warranty of\n" +
    "# MERCHANTABILITY or FITNESS FOR A PARTICULAR PURPOSE.\n" +
    "#\n" +
    "# See LICENSE for more details.\n"

  /** GPL version 2 only. */
  const GplV2Strict: string :=
    "# This program is free software; you can redistribute it and/or modify\n" +
    "# it under the terms of the GNU General Public License as published by\n" +
    "# the Free Software Foundation; specifically version 2 of the License.\n" +
    "#\n" +
    "# This program is distributed in the hope that it will be useful,\n" +
    "# but WITHOUT ANY WARRANTY; without even the implied warranty of\n" +
    "# MERCHANTABILITY or FITNESS FOR A PARTICULAR PURPOSE.\n" +
    "#\n" +
    "# See LICENSE for more details.\n"

  /** The registered license keys and their templates. */
  const LicenseMapping: map<string, string> :=
    map["gplv2_later" := GplV2Later, "gplv2_strict" := GplV2Strict]

  /** Every registered template is non-empty and ends with a line terminator. */
  lemma {:induction false} TemplateEndsWithNewline(license: string)
    requires license in LicenseMapping
    ensures LicenseMapping[license] != []
    ensures LicenseMapping[license][|LicenseMapping[license]| - 1] == '\n'
  {
  }
}
