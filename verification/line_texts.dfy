/** The literal lines of the worked statement examples, each assembled
    from the pieces the printer concatenates. */
module LineTexts {

  lemma ForIHeader()
    ensures "" + ("for " + "i" + " in " + "par(0,n)" + ":") == "for i in par(0,n):"
  {
  }

  lemma ForI1InnerHeader()
    ensures "  " + ("for " + "i_1" + " in " + "par(0,i)" + ":") == "  for i_1 in par(0,i):"
  {
  }

  lemma ForI1Header()
    ensures "" + ("for " + "i_1" + " in " + "par(0,n)" + ":") == "for i_1 in par(0,n):"
  {
  }

  lemma FirstIndent()
    ensures "" + "  " == "  "
  {
  }

  lemma PassAtDepth1()
    ensures ("" + "  ") + "pass" == "  pass"
  {
  }

  lemma PassAtDepth2()
    ensures ("  " + "  ") + "pass" == "    pass"
  {
  }

  lemma AssignX()
    ensures "" + "x" + "" + " " + "=" + " " + "0" == "x = 0"
  {
  }

  lemma AssignX1()
    ensures "" + "x_1" + "" + " " + "=" + " " + "x + 1" == "x_1 = x + 1"
  {
  }

  lemma PlusOne()
    ensures "x" + "" + " " + "+" + " " + "1" == "x + 1"
  {
  }

  lemma FirstCounter()
    ensures "i" + "_1" == "i_1" && "x" + "_1" == "x_1"
  {
  }
}
