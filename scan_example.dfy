/** Two GTF records that both carry `gene_id`, scanned and then built into a column:
    what a caller can conclude from the contracts alone. */
module ScanExample {
  import opened Wrappers
  import opened Attribute
  import opened AttributeBuilders
  import opened AttributeScanners

  method TwoGeneIds()
  {
    var first := GtfRecord([GtfEntry("gene_id", "g1")]);
    var second := GtfRecord([GtfEntry("gene_id", "g2")]);

    var scanner := new AttributeScanner();
    scanner.PushGtf(first);
    scanner.PushGtf(second);
    assert scanner.attrs == map["gene_id" := "String"];
    var defs := scanner.Collect();
    CollectIsCanonical(scanner.attrs, defs, [("gene_id", "String")]);
    assert defs == [("gene_id", "String")];

    var def := TryFromPair(defs[0]);
    CollectedPairsParse(defs, 0);
    assert def == Ok(AttributeDef("gene_id", AttributeType.String));

    var builder := new AttributeBuilder(def.value.ty);
    var r1 := builder.AppendValue(FromGtfEntry(first.attributes[0]));
    var r2 := builder.AppendValue(FromGtfEntry(second.attributes[0]));
    var column := builder.Finish();
    assert r1.Ok? && r2.Ok?;
    assert column.dataType == Utf8;
    assert column.cells == [Some(AttributeValue.String("g1")), Some(AttributeValue.String("g2"))];

    var rejected := builder.AppendValue(AttributeValue.Array(["g3"]));
    assert rejected == Err(InvalidInput);
  }
}
